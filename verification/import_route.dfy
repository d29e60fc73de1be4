/**
 * `POST /api/import` of app/api/import/route.ts: authentication, input
 * validation, the `processing` audit row, fetching and extracting the page,
 * the optional model call, the job insert and the audit row's final status.
 *
 * Every external step (session lookup, body parsing, each database call, the
 * fetch with its HTML extraction, the model call with its JSON parsing) is an
 * oracle outcome in `Oracle`; `Post` returns the response, the sequence of
 * external requests it made, and the rows it left behind.
 */
module ImportRoute {
  import opened Outcomes
  import opened Strings
  import opened Json
  import opened Db
  import opened Jobs
  import opened FieldExtract
  import Encoding

  /** Longest description stored with a job. */
  const DescriptionLimit: nat := 12000
  /** Longest brief description stored with a job. */
  const BriefLimit: nat := 400

  const NoKeyInsights := "(AI disabled: no key)"
  const UntitledRole := "Untitled role"
  const UnknownCompany := "Unknown"
  const ModelName := "gpt-4o-mini"
  const PromptPrefix :=
    "Create JSON with keys: bullet_insights (array of 5 strings), keywords (array), risk_flags (array). Job description:\n"
  const GenericFailure :=
    "Import failed. Some websites block automated extraction. Please copy details manually in the Add Job form."
  /** What a JavaScript `TypeError` reads as; the engine's exact wording is not modelled. */
  const TypeErrorText := "TypeError"

  // ---------------------------------------------------------------------------
  // Fallback chains

  /** A JavaScript-truthy string: present and non-empty. */
  predicate Present(o: Option<string>) {
    o.Some? && o.value != ""
  }

  /** The index of the first present candidate, or `|cands|` when there is none. */
  function FirstPresentIndex(cands: seq<Option<string>>): (j: nat)
    ensures j <= |cands|
    ensures j < |cands| ==> Present(cands[j])
    ensures forall k | 0 <= k < j :: !Present(cands[k])
  {
    if |cands| == 0 then 0
    else if Present(cands[0]) then 0
    else
      var j := 1 + FirstPresentIndex(cands[1..]);
      assert forall k | 1 <= k < j :: cands[k] == cands[1..][k - 1];
      j
  }

  /** `a || b || … || fallback`: the first present candidate, else the fallback. */
  function FirstPresent(cands: seq<Option<string>>, fallback: string): (r: string)
    ensures fallback != "" ==> r != ""
  {
    var j := FirstPresentIndex(cands);
    if j < |cands| then cands[j].value else fallback
  }

  // ---------------------------------------------------------------------------
  // The page and what is derived from it

  /** What Readability made of the page, when it recognised an article. */
  datatype Article = Article(title: Option<string>, textContent: Option<string>)

  /** What JSDOM and Readability made of the fetched HTML. */
  datatype Page = Page(
    article: Option<Article>,
    bodyText: Option<string>,
    documentTitle: string,
    siteName: Option<string>)

  /** The fields derived from the page and the URL without any model call. */
  datatype Extracted = Extracted(
    text: string,
    title: string,
    company: string,
    location: Option<string>,
    salaryText: Option<string>,
    workMode: Option<WorkMode>,
    platform: Platform,
    description: string)

  /** `article?.textContent ?? body?.textContent ?? ""`. */
  function PageText(page: Page): string {
    var fromArticle := if page.article.Some? then page.article.value.textContent else None;
    fromArticle.GetOr(page.bodyText.GetOr(""))
  }

  function TitleCandidates(page: Page, text: string): seq<Option<string>> {
    [ if page.article.Some? then page.article.value.title else None,
      Some(page.documentTitle),
      ExtractField(text, "Job Title") ]
  }

  function CompanyCandidates(page: Page, text: string): seq<Option<string>> {
    [ ExtractField(text, "Company"), ExtractField(text, "Employer"), page.siteName ]
  }

  /** Steps 4 of the route before the model call: text, fallback chains, classifiers, truncation. */
  function Extract(url: string, page: Page): (x: Extracted)
    ensures x.text == PageText(page)
    ensures x.title != "" && x.company != ""
    ensures x.title == FirstPresent(TitleCandidates(page, x.text), UntitledRole)
    ensures x.company == FirstPresent(CompanyCandidates(page, x.text), UnknownCompany)
    ensures x.location.Some? ==> x.location.value != "" && IsTrimmed(x.location.value) && NoNewline(x.location.value)
    ensures x.salaryText.Some? ==> x.salaryText.value != "" && IsTrimmed(x.salaryText.value) && NoNewline(x.salaryText.value)
    ensures IsPrefix(x.description, x.text) && |x.description| <= DescriptionLimit
    ensures |x.text| <= DescriptionLimit ==> x.description == x.text
    ensures |x.text| > DescriptionLimit ==> |x.description| == DescriptionLimit
    ensures x.platform == InferPlatform(url) && x.workMode == InferWorkMode(x.text)
  {
    var text := PageText(page);
    Extracted(
      text,
      FirstPresent(TitleCandidates(page, text), UntitledRole),
      FirstPresent(CompanyCandidates(page, text), UnknownCompany),
      Truthy(ExtractField(text, "Location")),
      Truthy(ExtractField(text, "Salary")),
      InferWorkMode(text),
      InferPlatform(url),
      Take(text, DescriptionLimit))
  }

  /** An article title, when Readability found one, always wins the title chain. */
  lemma ArticleTitleWins(url: string, page: Page, t: string)
    requires page.article.Some? && page.article.value.title == Some(t) && t != ""
    ensures Extract(url, page).title == t
  {
    assert FirstPresentIndex(TitleCandidates(page, PageText(page))) == 0;
  }

  lemma ThirdCandidate(c: seq<Option<string>>, fallback: string)
    requires |c| == 3 && !Present(c[0]) && !Present(c[1])
    ensures FirstPresent(c, fallback) == OrElseOpt(c[2], fallback)
  {
    assert FirstPresentIndex(c) >= 2;
  }

  /** Without article or document title, the "Job Title" line of the text supplies the title. */
  lemma JobTitleLineIsThirdChoice(url: string, page: Page)
    requires page.article.None? && page.documentTitle == ""
    ensures Extract(url, page).title == OrElseOpt(ExtractField(PageText(page), "Job Title"), UntitledRole)
  {
    var c := TitleCandidates(page, PageText(page));
    assert Extract(url, page).title == FirstPresent(c, UntitledRole);
    ThirdCandidate(c, UntitledRole);
  }

  // ---------------------------------------------------------------------------
  // Insights from the model reply

  /** The bullet prefix as the source spells it: U+2022 encoded in UTF-8 and read back as Windows-1252. */
  const BulletPrefixAsWritten: string := "\U{E2}\U{20AC}\U{A2} "
  /** The bullet prefix evidently intended: U+2022 BULLET and a space. */
  const BulletPrefix: string := "\U{2022} "

  /** `lines.join("\n")`. */
  function JoinLines(lines: seq<string>): string {
    if |lines| == 0 then ""
    else if |lines| == 1 then lines[0]
    else lines[0] + "\n" + JoinLines(lines[1..])
  }

  function BulletLines(prefix: string, items: seq<JsonValue>): (r: seq<string>)
    ensures |r| == |items|
    ensures forall i | 0 <= i < |items| :: r[i] == prefix + Render(items[i])
  {
    seq(|items|, i requires 0 <= i < |items| => prefix + Render(items[i]))
  }

  /** The insight text as written: every item behind the garbled prefix. */
  function InsightsTextAsWritten(items: seq<JsonValue>): string {
    JoinLines(BulletLines(BulletPrefixAsWritten, items))
  }

  /** The insight text with the intended bullet. */
  function InsightsText(items: seq<JsonValue>): string {
    JoinLines(BulletLines(BulletPrefix, items))
  }

  /** `(json.bullet_insights ?? [])`, then `.map`: reading a member of `null` or mapping a non-array throws. */
  function BulletItems(json: JsonValue): (r: Result<seq<JsonValue>>)
    ensures r.Err? ==> r.msg == TypeErrorText
    ensures var m := Member(json, "bullet_insights");
      r.Err? <==> json.JNull? || (m.Some? && !m.value.JNull? && !m.value.JArr?)
    ensures var m := Member(json, "bullet_insights");
      r.Ok? ==> r.value == (if m.Some? && m.value.JArr? then m.value.items else [])
  {
    if json.JNull? then Err(TypeErrorText)
    else
      match Member(json, "bullet_insights")
      case None => Ok([])
      case Some(JNull) => Ok([])
      case Some(JArr(xs)) => Ok(xs)
      case Some(_) => Err(TypeErrorText)
  }

  /** A bullet item that is an object with its own `toString` member makes the template throw. */
  lemma ToStringItemFails(apiKey: Option<string>, x: JsonValue)
    requires HasKey(apiKey)
    ensures var reply := JObj(map["bullet_insights" := JArr([JObj(map["toString" := x])])]);
      ComputeInsights(apiKey, Ok(reply)) == Err(TypeErrorText)
  {
    var item := JObj(map["toString" := x]);
    assert !Stringifies(item);
    assert [item][0] == item;
    assert !ItemsStringify([item]);
  }

  /** Replies whose items are all strings, as the prompt asks for, never take that path. */
  lemma StringItemsStringify(items: seq<JsonValue>)
    requires forall i | 0 <= i < |items| :: items[i].JStr?
    ensures ItemsStringify(items)
  {
  }

  /** The `ai_insights` text and the `ai_insights_json` value stored with the job. */
  datatype Insights = Insights(text: string, json: Option<JsonValue>)

  /** The key is usable when it is set and non-empty. */
  predicate HasKey(apiKey: Option<string>) {
    Present(apiKey)
  }

  /** Every item survives the `${x}` of the bullet template. */
  predicate ItemsStringify(items: seq<JsonValue>) {
    forall i | 0 <= i < |items| :: Stringifies(items[i])
  }

  /**
   * Step 5: without a key the placeholder and no JSON; with one, the model's
   * reply turned into bullet lines (behind the prefix as the source spells
   * it), or the error that aborts the import: the model's own, or the
   * `TypeError` of a missing array or of an item `String` cannot convert.
   */
  function ComputeInsights(apiKey: Option<string>, reply: Result<JsonValue>): (r: Result<Insights>)
    ensures !HasKey(apiKey) ==> r == Ok(Insights(NoKeyInsights, None))
    ensures HasKey(apiKey) && reply.Err? ==> r == Err(reply.msg)
    ensures HasKey(apiKey) && r.Ok? ==> reply.Ok? && r.value.json == Some(reply.value)
    ensures HasKey(apiKey) && reply.Ok? ==>
      (r.Ok? <==> BulletItems(reply.value).Ok? && ItemsStringify(BulletItems(reply.value).value))
    ensures HasKey(apiKey) && reply.Ok? && r.Err? ==> r.msg == TypeErrorText
    ensures HasKey(apiKey) && r.Ok? ==> r.value.text == InsightsTextAsWritten(BulletItems(reply.value).value)
  {
    if !HasKey(apiKey) then Ok(Insights(NoKeyInsights, None))
    else
      match reply
      case Err(e) => Err(e)
      case Ok(json) =>
        match BulletItems(json)
        case Err(e) => Err(e)
        case Ok(items) =>
          if ItemsStringify(items) then Ok(Insights(InsightsTextAsWritten(items), Some(json)))
          else Err(TypeErrorText)
  }

  // ---------------------------------------------------------------------------
  // Rows, requests and responses

  datatype ImportStatus = Processing | Done | Failed

  /** What `extracted_payload` records on success. */
  datatype Payload = Payload(title: string, company: string, location: Option<string>, salaryText: Option<string>)

  /** A `job_imports` row. */
  datatype ImportRow = ImportRow(
    id: string,
    userId: string,
    sourceUrl: string,
    status: ImportStatus,
    platform: Platform,
    errorMessage: Option<string>,
    createdJobId: Option<string>,
    payload: Option<Payload>)

  /** The `job_applications` row the route inserts. */
  datatype NewJob = NewJob(
    userId: string,
    jobTitle: string,
    companyName: string,
    status: JobStatus,
    jobDescription: string,
    briefDescription: string,
    jobUrl: string,
    platform: Platform,
    workMode: Option<WorkMode>,
    location: Option<string>,
    salaryText: Option<string>,
    aiInsights: string,
    aiInsightsJson: Option<JsonValue>,
    appliedAt: string)

  datatype ImportChange = MarkFailed(message: string) | MarkDone(jobId: Option<string>, payload: Payload)

  /** One request the route makes to the outside world, in order. */
  datatype Effect =
    | InsertImport(row: ImportRow)
    | FetchPage(url: string)
    | CallModel(model: string, prompt: string)
    | InsertJob(job: NewJob)
    | UpdateImport(id: string, change: ImportChange)

  datatype Reply =
    | ErrorReply(error: string)
    | OkReply(jobId: Option<string>, warning: Option<string>)

  datatype Response = Response(status: int, reply: Reply)

  /** The incoming request: its JSON body, or `None` when `request.json()` throws. */
  datatype Request = Request(body: Option<JsonValue>)

  /**
   * The outcomes of the external steps. `doneUpdate` and `failUpdate` are
   * the errors of the final `job_imports` updates (the route ignores the
   * latter); `today` is the `YYYY-MM-DD` date stored as `applied_at`.
   */
  datatype Oracle = Oracle(
    user: Option<string>,
    importId: string,
    importInsert: Option<string>,
    fetched: Result<Page>,
    modelReply: Result<JsonValue>,
    jobInsert: Result<Option<string>>,
    doneUpdate: Option<string>,
    failUpdate: Option<string>,
    today: string)

  /** The response, the requests made in order, and the rows left behind. */
  datatype RouteRun = RouteRun(
    response: Response,
    effects: seq<Effect>,
    importRow: Option<ImportRow>,
    job: Option<NewJob>)

  /** `(body?.url ?? "").toString()`. */
  function UrlField(body: JsonValue): (r: string)
    ensures Member(body, "url").None? || Member(body, "url") == Some(JNull) ==> r == ""
    ensures Member(body, "url").Some? && Member(body, "url").value.JStr? ==> r == Member(body, "url").value.s
  {
    match Member(body, "url")
    case Some(v) => if v.JNull? then "" else Render(v)
    case None => ""
  }

  /** An update changes the stored row only when it succeeds. */
  function ApplyChange(row: ImportRow, change: ImportChange, error: Option<string>): ImportRow {
    if error.Some? then row
    else
      match change
      case MarkFailed(m) => row.(status := Failed, errorMessage := Some(m))
      case MarkDone(id, p) => row.(status := Done, createdJobId := id, payload := Some(p))
  }

  function NewJobFor(userId: string, url: string, x: Extracted, ins: Insights, today: string): NewJob {
    NewJob(userId, x.title, x.company, Applied, x.description, Take(x.description, BriefLimit),
           url, x.platform, x.workMode, x.location, x.salaryText, ins.text, ins.json, today)
  }

  /** The catch block: mark the audit row failed with the error and answer with the generic message. */
  function Abort(row: ImportRow, effects: seq<Effect>, error: string, o: Oracle): (run: RouteRun)
    ensures run.response == Response(500, ErrorReply(GenericFailure)) && run.job.None?
    ensures run.effects == effects + [UpdateImport(row.id, MarkFailed(error))]
    ensures run.importRow == Some(ApplyChange(row, MarkFailed(error), o.failUpdate))
  {
    RouteRun(Response(500, ErrorReply(GenericFailure)),
             effects + [UpdateImport(row.id, MarkFailed(error))],
             Some(ApplyChange(row, MarkFailed(error), o.failUpdate)),
             None)
  }

  /** Steps 6 and 7: insert the job, then mark the audit row `failed` or `done`. */
  function Finish(row: ImportRow, x: Extracted, job: NewJob, asked: seq<Effect>, o: Oracle): (run: RouteRun)
    ensures |run.effects| == |asked| + 2 && run.effects[..|asked| + 1] == asked + [InsertJob(job)]
    ensures run.effects[|asked| + 1].UpdateImport?
    ensures run.job.Some? <==> o.jobInsert.Ok?
    ensures run.job.Some? ==> run.job == Some(job)
  {
    var inserted := asked + [InsertJob(job)];
    match o.jobInsert
    case Err(m) =>
      RouteRun(Response(500, ErrorReply("Failed to create job application: " + m)),
               inserted + [UpdateImport(row.id, MarkFailed(m))],
               Some(ApplyChange(row, MarkFailed(m), o.failUpdate)),
               None)
    case Ok(jobId) =>
      var change := MarkDone(jobId, Payload(x.title, x.company, x.location, x.salaryText));
      var warning :=
        if o.doneUpdate.Some? then Some("Import created but failed to update import row: " + o.doneUpdate.value)
        else None;
      RouteRun(Response(200, OkReply(jobId, warning)),
               inserted + [UpdateImport(row.id, change)],
               Some(ApplyChange(row, change, o.doneUpdate)),
               Some(job))
  }

  /** The requests made before the job insert: audit row, fetch, and the model call when a key is set. */
  function Asked(row: ImportRow, url: string, x: Extracted, apiKey: Option<string>): seq<Effect> {
    var started := [InsertImport(row), FetchPage(url)];
    if HasKey(apiKey) then started + [CallModel(ModelName, PromptPrefix + x.description)] else started
  }

  /** Steps 4 and 5 once the page is in hand: derive the fields, ask the model when a key is set, then finish. */
  function AfterFetch(url: string, row: ImportRow, page: Page, apiKey: Option<string>, o: Oracle): RouteRun {
    var x := Extract(url, page);
    var asked := Asked(row, url, x, apiKey);
    match ComputeInsights(apiKey, o.modelReply)
    case Err(e) => Abort(row, asked, e, o)
    case Ok(ins) => Finish(row, x, NewJobFor(row.userId, url, x, ins, o.today), asked, o)
  }

  /** Everything after the audit row exists: a failed fetch goes to the catch block. */
  function Process(url: string, row: ImportRow, apiKey: Option<string>, o: Oracle): RouteRun {
    match o.fetched
    case Err(e) => Abort(row, [InsertImport(row), FetchPage(url)], e, o)
    case Ok(page) => AfterFetch(url, row, page, apiKey, o)
  }

  /** Step 3: the audit row as first inserted. */
  function ProcessingRow(id: string, userId: string, url: string): (row: ImportRow)
    ensures row.status == Processing && row.errorMessage.None? && row.createdJobId.None? && row.payload.None?
    ensures row.sourceUrl == url && row.platform == InferPlatform(url)
  {
    ImportRow(id, userId, url, Processing, InferPlatform(url), None, None, None)
  }

  /** The route: the response, its requests and the rows it leaves, for every combination of step outcomes. */
  function Post(req: Request, apiKey: Option<string>, o: Oracle): (r: RouteRun)
    ensures r.response.status in {200, 400, 401, 500}
    ensures r.response.status in {400, 401} ==> r.effects == [] && r.importRow.None? && r.job.None?
    ensures r.job.Some? <==> r.response.status == 200
  {
    if o.user.None? then RouteRun(Response(401, ErrorReply("Unauthorized")), [], None, None)
    else if req.body.None? then RouteRun(Response(400, ErrorReply("Invalid JSON body")), [], None, None)
    else
      var url := Trim(UrlField(req.body.value));
      if url == "" then RouteRun(Response(400, ErrorReply("URL is required")), [], None, None)
      else
        var row := ProcessingRow(o.importId, o.user.value, url);
        if o.importInsert.Some? then
          RouteRun(Response(500, ErrorReply("Failed to create import row: " + o.importInsert.value)),
                   [InsertImport(row)], None, None)
        else
          ProcessGuarantees(url, row, apiKey, o);
          Process(url, row, apiKey, o)
  }

  // ---------------------------------------------------------------------------
  // What every run guarantees

  /** The position of each kind of request in the route's fixed order. */
  function Stage(e: Effect): nat {
    match e
    case InsertImport(_) => 0
    case FetchPage(_) => 1
    case CallModel(_, _) => 2
    case InsertJob(_) => 3
    case UpdateImport(_, _) => 4
  }

  /**
   * The requests follow the route's order, each kind at most once: audit
   * row first (in `processing`), then the fetch, and whenever the fetch
   * happened the run ends with an update of the audit row.
   */
  ghost predicate WellOrdered(es: seq<Effect>) {
    && (forall i, j | 0 <= i < j < |es| :: Stage(es[i]) < Stage(es[j]))
    && (|es| > 0 ==> es[0].InsertImport? && es[0].row.status == Processing)
    && (|es| > 1 ==> es[1].FetchPage? && es[|es| - 1].UpdateImport?)
  }

  /** A stored job satisfies the route's bounds: the brief is exactly the first `BriefLimit` characters of the description, or all of it. */
  ghost predicate JobWithinBounds(j: NewJob) {
    && j.jobTitle != "" && j.companyName != ""
    && |j.jobDescription| <= DescriptionLimit
    && IsPrefix(j.briefDescription, j.jobDescription)
    && |j.briefDescription| <= BriefLimit
    && (|j.jobDescription| <= BriefLimit ==> j.briefDescription == j.jobDescription)
    && (|j.jobDescription| > BriefLimit ==> |j.briefDescription| == BriefLimit)
    && j.status == Applied
  }

  ghost predicate RunGuarantees(run: RouteRun, apiKey: Option<string>) {
    && run.response.status in {200, 400, 401, 500}
    && (run.response.status == 200 <==> run.response.reply.OkReply?)
    && (run.response.reply.ErrorReply? ==> run.response.reply.error != "")
    && (run.response.status in {400, 401} ==> run.effects == [] && run.importRow.None? && run.job.None?)
    && WellOrdered(run.effects)
    && (run.job.Some? <==> run.response.status == 200)
    && (run.job.Some? ==> JobWithinBounds(run.job.value))
    && (run.importRow.Some? && run.importRow.value.status == Done ==>
          run.response == Response(200, OkReply(run.importRow.value.createdJobId, None)))
    && (run.importRow.Some? && run.importRow.value.status == Failed ==>
          run.response.status == 500 && run.importRow.value.errorMessage.Some?)
    && (!HasKey(apiKey) ==> forall i | 0 <= i < |run.effects| :: !run.effects[i].CallModel?)
  }

  lemma AbortGuarantees(row: ImportRow, url: string, middle: seq<Effect>, error: string, o: Oracle, apiKey: Option<string>)
    requires row.status == Processing && row.errorMessage.None?
    requires middle == [] || (|middle| == 1 && middle[0].CallModel?)
    requires !HasKey(apiKey) ==> middle == []
    ensures RunGuarantees(Abort(row, [InsertImport(row), FetchPage(url)] + middle, error, o), apiKey)
  {
    var run := Abort(row, [InsertImport(row), FetchPage(url)] + middle, error, o);
    assert forall i | 0 <= i < |run.effects| :: Stage(run.effects[i]) == if i == |run.effects| - 1 then 4 else if i < 2 then i else 2;
  }

  lemma FinishGuarantees(row: ImportRow, url: string, x: Extracted, job: NewJob, middle: seq<Effect>, o: Oracle, apiKey: Option<string>)
    requires row.status == Processing && row.errorMessage.None?
    requires middle == [] || (|middle| == 1 && middle[0].CallModel?)
    requires !HasKey(apiKey) ==> middle == []
    requires JobWithinBounds(job)
    ensures RunGuarantees(Finish(row, x, job, [InsertImport(row), FetchPage(url)] + middle, o), apiKey)
  {
    var asked := [InsertImport(row), FetchPage(url)] + middle;
    var run := Finish(row, x, job, asked, o);
    assert run.effects == asked + [InsertJob(job), run.effects[|asked| + 1]];
    FinishedEffectsWellOrdered(row, url, middle, job, run.effects[|asked| + 1]);
  }

  lemma FinishedEffectsWellOrdered(row: ImportRow, url: string, middle: seq<Effect>, job: NewJob, last: Effect)
    requires row.status == Processing
    requires middle == [] || (|middle| == 1 && middle[0].CallModel?)
    requires last.UpdateImport?
    ensures var es := [InsertImport(row), FetchPage(url)] + middle + [InsertJob(job), last];
      WellOrdered(es) && forall i | 0 <= i < |es| :: es[i].CallModel? ==> middle != []
  {
    var es := [InsertImport(row), FetchPage(url)] + middle + [InsertJob(job), last];
    assert forall i | 0 <= i < |es| ::
      Stage(es[i]) == if i == |es| - 1 then 4 else if i == |es| - 2 then 3 else if i < 2 then i else 2;
  }

  lemma AfterFetchGuarantees(url: string, row: ImportRow, page: Page, apiKey: Option<string>, o: Oracle)
    requires row.status == Processing && row.errorMessage.None?
    ensures RunGuarantees(AfterFetch(url, row, page, apiKey, o), apiKey)
  {
    var started := [InsertImport(row), FetchPage(url)];
    var x := Extract(url, page);
    var middle := if HasKey(apiKey) then [CallModel(ModelName, PromptPrefix + x.description)] else [];
    assert started + middle == if HasKey(apiKey) then started + [CallModel(ModelName, PromptPrefix + x.description)] else started;
    match ComputeInsights(apiKey, o.modelReply) {
      case Err(e) =>
        AbortGuarantees(row, url, middle, e, o, apiKey);
      case Ok(ins) =>
        FinishGuarantees(row, url, x, NewJobFor(row.userId, url, x, ins, o.today), middle, o, apiKey);
    }
  }

  /**
   * Every run, whatever the step outcomes: the status codes the route can
   * answer, no request before authentication and validation pass, requests
   * in the route's order, a job exactly on 200, a job within its column
   * bounds, `done` only with a 200 naming the created job, `failed` only
   * with a 500 and an error message, and no model call without a key.
   */
  lemma PostGuarantees(req: Request, apiKey: Option<string>, o: Oracle)
    ensures RunGuarantees(Post(req, apiKey, o), apiKey)
  {
    if o.user.None? || req.body.None? {
      EarlyExitGuarantees(req, apiKey, o);
    } else if Trim(UrlField(req.body.value)) == "" || o.importInsert.Some? {
      EarlyExitGuarantees(req, apiKey, o);
    } else {
      var url := Trim(UrlField(req.body.value));
      TrimEmptyIff(UrlField(req.body.value));
      PostProcesses(req, apiKey, o);
      ProcessGuarantees(url, ProcessingRow(o.importId, o.user.value, url), apiKey, o);
    }
  }

  lemma EarlyExitGuarantees(req: Request, apiKey: Option<string>, o: Oracle)
    requires o.user.None? || req.body.None? || Trim(UrlField(req.body.value)) == "" || o.importInsert.Some?
    ensures RunGuarantees(Post(req, apiKey, o), apiKey)
  {
    var run := Post(req, apiKey, o);
    if o.user.None? {
      assert run == RouteRun(Response(401, ErrorReply("Unauthorized")), [], None, None);
      RefusalGuarantees(401, "Unauthorized", [], apiKey);
    } else if req.body.None? {
      assert run == RouteRun(Response(400, ErrorReply("Invalid JSON body")), [], None, None);
      RefusalGuarantees(400, "Invalid JSON body", [], apiKey);
    } else if Trim(UrlField(req.body.value)) == "" {
      assert run == RouteRun(Response(400, ErrorReply("URL is required")), [], None, None);
      RefusalGuarantees(400, "URL is required", [], apiKey);
    } else {
      var url := Trim(UrlField(req.body.value));
      var row := ProcessingRow(o.importId, o.user.value, url);
      var error := "Failed to create import row: " + o.importInsert.value;
      assert run == RouteRun(Response(500, ErrorReply(error)), [InsertImport(row)], None, None);
      RefusalGuarantees(500, error, [InsertImport(row)], apiKey);
    }
  }

  /** A run that stops with an error before any job: nothing or only the audit-row insert was requested. */
  lemma RefusalGuarantees(status: int, error: string, effects: seq<Effect>, apiKey: Option<string>)
    requires status in {400, 401, 500} && error != ""
    requires status in {400, 401} ==> effects == []
    requires effects == [] || (|effects| == 1 && effects[0].InsertImport? && effects[0].row.status == Processing)
    ensures RunGuarantees(RouteRun(Response(status, ErrorReply(error)), effects, None, None), apiKey)
  {
  }

  lemma ProcessGuarantees(url: string, row: ImportRow, apiKey: Option<string>, o: Oracle)
    requires row.status == Processing && row.errorMessage.None?
    ensures RunGuarantees(Process(url, row, apiKey, o), apiKey)
  {
    match o.fetched {
      case Err(e) =>
        AbortGuarantees(row, url, [], e, o, apiKey);
        assert [InsertImport(row), FetchPage(url)] + [] == [InsertImport(row), FetchPage(url)];
      case Ok(page) =>
        AfterFetchGuarantees(url, row, page, apiKey, o);
    }
  }

  // ---------------------------------------------------------------------------
  // One request at a time

  /** Nothing is requested or stored before the session is known. */
  lemma UnauthenticatedIsRejected(req: Request, apiKey: Option<string>, o: Oracle)
    requires o.user.None?
    ensures var run := Post(req, apiKey, o);
      run.response == Response(401, ErrorReply("Unauthorized")) && run.effects == [] && run.importRow.None?
  {
  }

  /** The route needs a URL: a body with only pasted `content` (and `cvText`) is answered 400 without any request. */
  lemma ContentWithoutUrlIsRejected(content: string, cvText: string, apiKey: Option<string>, o: Oracle)
    requires o.user.Some?
    ensures var body := JObj(map["content" := JStr(content), "cvText" := JStr(cvText)]);
      var run := Post(Request(Some(body)), apiKey, o);
      run.response == Response(400, ErrorReply("URL is required")) && run.effects == [] && run.job.None?
  {
    var body := JObj(map["content" := JStr(content), "cvText" := JStr(cvText)]);
    assert "url" !in body.fields;
  }

  /** A signed-in request whose `url` is missing, `null` or blank is answered 400 without any request. */
  lemma BlankUrlIsRejected(body: JsonValue, apiKey: Option<string>, o: Oracle)
    requires o.user.Some? && AllWs(UrlField(body))
    ensures var run := Post(Request(Some(body)), apiKey, o);
      run.response == Response(400, ErrorReply("URL is required")) && run.effects == [] && run.job.None?
  {
    TrimEmptyIff(UrlField(body));
  }

  /** Two bodies that agree on `url` get the same run: every other field of the body is ignored. */
  lemma RouteIgnoresAllButUrl(b1: JsonValue, b2: JsonValue, apiKey: Option<string>, o: Oracle)
    requires Member(b1, "url") == Member(b2, "url")
    ensures Post(Request(Some(b1)), apiKey, o) == Post(Request(Some(b2)), apiKey, o)
  {
    assert UrlField(b1) == UrlField(b2);
  }

  /** Past validation and the audit-row insert, the route is `Process` on the trimmed URL. */
  lemma PostProcesses(req: Request, apiKey: Option<string>, o: Oracle)
    requires o.user.Some? && req.body.Some? && !AllWs(UrlField(req.body.value)) && o.importInsert.None?
    ensures var url := Trim(UrlField(req.body.value));
      Post(req, apiKey, o) == Process(url, ProcessingRow(o.importId, o.user.value, url), apiKey, o)
  {
    TrimEmptyIff(UrlField(req.body.value));
  }

  lemma ProcessShape(url: string, row: ImportRow, apiKey: Option<string>, o: Oracle)
    ensures var run := Process(url, row, apiKey, o);
      |run.effects| >= 3 && run.effects[0] == InsertImport(row) && run.effects[1] == FetchPage(url)
      && (run.job.Some? ==> run.job.value.jobUrl == url && run.job.value.platform == InferPlatform(url))
  {
    match o.fetched {
      case Err(e) =>
      case Ok(page) =>
        var x := Extract(url, page);
        var started := [InsertImport(row), FetchPage(url)];
        var asked := if HasKey(apiKey) then started + [CallModel(ModelName, PromptPrefix + x.description)] else started;
        assert asked[..2] == started;
        match ComputeInsights(apiKey, o.modelReply) {
          case Err(e) =>
          case Ok(ins) =>
            var run := Finish(row, x, NewJobFor(row.userId, url, x, ins, o.today), asked, o);
            assert run.effects[..2] == run.effects[..|asked| + 1][..2];
        }
    }
  }

  /**
   * The audit row the route records (in `processing`, platform from the
   * URL) and the page it fetches are both the trimmed `url` member; so is
   * the stored job's URL.
   */
  lemma FetchesTrimmedUrl(req: Request, apiKey: Option<string>, o: Oracle)
    requires o.user.Some? && req.body.Some? && o.importInsert.None?
    requires !AllWs(UrlField(req.body.value))
    ensures var run := Post(req, apiKey, o);
      var url := Trim(UrlField(req.body.value));
      |run.effects| >= 3 && run.effects[1] == FetchPage(url)
      && run.effects[0] == InsertImport(ProcessingRow(o.importId, o.user.value, url))
      && (run.job.Some? ==> run.job.value.jobUrl == url && run.job.value.platform == InferPlatform(url))
  {
    var url := Trim(UrlField(req.body.value));
    ProcessShape(url, ProcessingRow(o.importId, o.user.value, url), apiKey, o);
    PostProcesses(req, apiKey, o);
  }

  /** A failed audit-row insert answers 500 with the database message and goes no further. */
  lemma ImportInsertFailureStops(req: Request, apiKey: Option<string>, o: Oracle)
    requires o.user.Some? && req.body.Some? && !AllWs(UrlField(req.body.value))
    requires o.importInsert.Some?
    ensures var run := Post(req, apiKey, o);
      run.response == Response(500, ErrorReply("Failed to create import row: " + o.importInsert.value))
      && |run.effects| == 1 && run.effects[0].InsertImport? && run.importRow.None? && run.job.None?
  {
    TrimEmptyIff(UrlField(req.body.value));
  }

  /** A failed fetch (or extraction) marks the audit row failed with the error and asks nothing of the model. */
  lemma FetchFailureMarksFailed(req: Request, apiKey: Option<string>, o: Oracle)
    requires o.user.Some? && req.body.Some? && !AllWs(UrlField(req.body.value))
    requires o.importInsert.None? && o.fetched.Err?
    ensures var run := Post(req, apiKey, o);
      run.response == Response(500, ErrorReply(GenericFailure))
      && |run.effects| == 3 && run.effects[2] == UpdateImport(o.importId, MarkFailed(o.fetched.msg))
      && run.job.None?
      && (o.failUpdate.None? ==> run.importRow.value.status == Failed && run.importRow.value.errorMessage == Some(o.fetched.msg))
  {
    PostProcesses(req, apiKey, o);
  }

  /**
   * A failed model call, or a reply whose `bullet_insights` cannot be
   * mapped, lands in the catch block: the audit row is marked failed with
   * that error after the model request, and no job is inserted.
   */
  lemma InsightsFailureMarksFailed(req: Request, apiKey: Option<string>, o: Oracle)
    requires o.user.Some? && req.body.Some? && !AllWs(UrlField(req.body.value))
    requires o.importInsert.None? && o.fetched.Ok?
    requires ComputeInsights(apiKey, o.modelReply).Err?
    ensures var run := Post(req, apiKey, o);
      run.response == Response(500, ErrorReply(GenericFailure))
      && |run.effects| == 4 && run.effects[2].CallModel?
      && run.effects[3] == UpdateImport(o.importId, MarkFailed(ComputeInsights(apiKey, o.modelReply).msg))
      && run.job.None?
  {
    var url := Trim(UrlField(req.body.value));
    var row := ProcessingRow(o.importId, o.user.value, url);
    var x := Extract(url, o.fetched.value);
    PostAborts(req, apiKey, o);
    AskedWithKey(row, url, x, apiKey);
    AbortAfterModelCall(row, Asked(row, url, x, apiKey), ComputeInsights(apiKey, o.modelReply).msg, o);
  }

  lemma AbortAfterModelCall(row: ImportRow, asked: seq<Effect>, e: string, o: Oracle)
    requires |asked| == 3 && asked[2].CallModel?
    ensures var run := Abort(row, asked, e, o);
      run.response == Response(500, ErrorReply(GenericFailure))
      && |run.effects| == 4 && run.effects[2].CallModel?
      && run.effects[3] == UpdateImport(row.id, MarkFailed(e))
      && run.job.None?
  {
  }

  /** With a key, the requests before the job insert end with the one model call. */
  lemma AskedWithKey(row: ImportRow, url: string, x: Extracted, apiKey: Option<string>)
    requires HasKey(apiKey)
    ensures Asked(row, url, x, apiKey) == [InsertImport(row), FetchPage(url), CallModel(ModelName, PromptPrefix + x.description)]
  {
  }

  /** With the page fetched, `Process` continues with `AfterFetch` on that page. */
  lemma ProcessFetched(url: string, row: ImportRow, apiKey: Option<string>, o: Oracle)
    requires o.fetched.Ok?
    ensures Process(url, row, apiKey, o) == AfterFetch(url, row, o.fetched.value, apiKey, o)
  {
  }

  /** Failing insights send `AfterFetch` to the catch block after the requests made so far. */
  lemma AfterFetchAborts(url: string, row: ImportRow, page: Page, apiKey: Option<string>, o: Oracle)
    requires ComputeInsights(apiKey, o.modelReply).Err?
    ensures AfterFetch(url, row, page, apiKey, o)
      == Abort(row, Asked(row, url, Extract(url, page), apiKey), ComputeInsights(apiKey, o.modelReply).msg, o)
  {
  }

  /** Computed insights send `AfterFetch` to `Finish` with the job built from them. */
  lemma AfterFetchFinishes(url: string, row: ImportRow, page: Page, apiKey: Option<string>, o: Oracle)
    requires ComputeInsights(apiKey, o.modelReply).Ok?
    ensures var x := Extract(url, page);
      AfterFetch(url, row, page, apiKey, o)
      == Finish(row, x, NewJobFor(row.userId, url, x, ComputeInsights(apiKey, o.modelReply).value, o.today),
                Asked(row, url, x, apiKey), o)
  {
  }

  /** With the page in hand and the insights failing, the run is the catch block after the requests made so far. */
  lemma PostAborts(req: Request, apiKey: Option<string>, o: Oracle)
    requires o.user.Some? && req.body.Some? && !AllWs(UrlField(req.body.value))
    requires o.importInsert.None? && o.fetched.Ok?
    requires ComputeInsights(apiKey, o.modelReply).Err?
    ensures var url := Trim(UrlField(req.body.value));
      var row := ProcessingRow(o.importId, o.user.value, url);
      var x := Extract(url, o.fetched.value);
      HasKey(apiKey) && Post(req, apiKey, o) == Abort(row, Asked(row, url, x, apiKey), ComputeInsights(apiKey, o.modelReply).msg, o)
  {
    var url := Trim(UrlField(req.body.value));
    var row := ProcessingRow(o.importId, o.user.value, url);
    PostProcesses(req, apiKey, o);
    ProcessFetched(url, row, apiKey, o);
    AfterFetchAborts(url, row, o.fetched.value, apiKey, o);
  }

  /** Without a key the job is stored with the placeholder insight and no JSON, and no model is asked. */
  lemma NoKeyStoresPlaceholder(req: Request, apiKey: Option<string>, o: Oracle)
    requires !HasKey(apiKey)
    ensures var run := Post(req, apiKey, o);
      run.job.Some? ==> run.job.value.aiInsights == NoKeyInsights && run.job.value.aiInsightsJson.None?
  {
    if o.user.Some? && req.body.Some? && Trim(UrlField(req.body.value)) != "" && o.importInsert.None? {
      TrimEmptyIff(UrlField(req.body.value));
      PostProcesses(req, apiKey, o);
    }
  }

  lemma AfterFetchAsks(url: string, row: ImportRow, page: Page, apiKey: Option<string>, o: Oracle)
    requires HasKey(apiKey)
    ensures var run := AfterFetch(url, row, page, apiKey, o);
      var d := Extract(url, page).description;
      |run.effects| >= 4 && run.effects[2] == CallModel(ModelName, PromptPrefix + d)
      && (run.job.Some? ==> run.job.value.jobDescription == d && |d| <= DescriptionLimit)
  {
    var x := Extract(url, page);
    var asked := [InsertImport(row), FetchPage(url), CallModel(ModelName, PromptPrefix + x.description)];
    match ComputeInsights(apiKey, o.modelReply) {
      case Err(e) =>
      case Ok(ins) =>
        var run := Finish(row, x, NewJobFor(row.userId, url, x, ins, o.today), asked, o);
        assert run.effects[2] == run.effects[..|asked| + 1][2];
    }
  }

  /** With a key and a page, the one model request carries the stored description. */
  lemma PromptCarriesDescription(req: Request, apiKey: Option<string>, o: Oracle)
    requires HasKey(apiKey) && o.user.Some? && req.body.Some? && !AllWs(UrlField(req.body.value))
    requires o.importInsert.None? && o.fetched.Ok?
    ensures var run := Post(req, apiKey, o);
      var d := Extract(Trim(UrlField(req.body.value)), o.fetched.value).description;
      |run.effects| >= 4 && run.effects[2] == CallModel(ModelName, PromptPrefix + d)
      && (run.job.Some? ==> run.job.value.jobDescription == d && |d| <= DescriptionLimit)
  {
    var url := Trim(UrlField(req.body.value));
    AfterFetchAsks(url, ProcessingRow(o.importId, o.user.value, url), o.fetched.value, apiKey, o);
    PostProcesses(req, apiKey, o);
  }

  /** A failed job insert marks the audit row failed with the database message and answers 500 naming it. */
  lemma JobInsertFailureMarksFailed(req: Request, apiKey: Option<string>, o: Oracle)
    requires o.user.Some? && req.body.Some? && !AllWs(UrlField(req.body.value))
    requires o.importInsert.None? && o.fetched.Ok? && o.jobInsert.Err?
    requires ComputeInsights(apiKey, o.modelReply).Ok?
    ensures var run := Post(req, apiKey, o);
      run.response == Response(500, ErrorReply("Failed to create job application: " + o.jobInsert.msg))
      && run.effects[|run.effects| - 1] == UpdateImport(o.importId, MarkFailed(o.jobInsert.msg))
      && run.job.None?
  {
    var url := Trim(UrlField(req.body.value));
    var row := ProcessingRow(o.importId, o.user.value, url);
    var x := Extract(url, o.fetched.value);
    var job := NewJobFor(row.userId, url, x, ComputeInsights(apiKey, o.modelReply).value, o.today);
    var asked := Asked(row, url, x, apiKey);
    assert Post(req, apiKey, o) == Finish(row, x, job, asked, o) by {
      PostFinishes(req, apiKey, o);
    }
    FinishOnInsertError(row, x, job, asked, o);
  }

  lemma FinishOnInsertError(row: ImportRow, x: Extracted, job: NewJob, asked: seq<Effect>, o: Oracle)
    requires o.jobInsert.Err?
    ensures var run := Finish(row, x, job, asked, o);
      run.response == Response(500, ErrorReply("Failed to create job application: " + o.jobInsert.msg))
      && run.effects[|run.effects| - 1] == UpdateImport(row.id, MarkFailed(o.jobInsert.msg))
      && run.job.None?
  {
  }

  /**
   * The whole pipeline succeeding: 200 with the new id, the audit row `done`
   * with that id and the extracted title, company, location and salary.
   */
  lemma SuccessMarksDone(req: Request, apiKey: Option<string>, o: Oracle)
    requires o.user.Some? && req.body.Some? && !AllWs(UrlField(req.body.value))
    requires o.importInsert.None? && o.fetched.Ok? && o.jobInsert.Ok? && o.doneUpdate.None?
    requires ComputeInsights(apiKey, o.modelReply).Ok?
    ensures var run := Post(req, apiKey, o);
      var x := Extract(Trim(UrlField(req.body.value)), o.fetched.value);
      run.response == Response(200, OkReply(o.jobInsert.value, None))
      && run.importRow.Some? && run.importRow.value.status == Done
      && run.importRow.value.createdJobId == o.jobInsert.value
      && run.importRow.value.payload == Some(Payload(x.title, x.company, x.location, x.salaryText))
      && run.job.Some? && run.job.value.jobTitle == x.title && run.job.value.companyName == x.company
  {
    var url := Trim(UrlField(req.body.value));
    var row := ProcessingRow(o.importId, o.user.value, url);
    var x := Extract(url, o.fetched.value);
    var job := NewJobFor(row.userId, url, x, ComputeInsights(apiKey, o.modelReply).value, o.today);
    var asked := Asked(row, url, x, apiKey);
    assert Post(req, apiKey, o) == Finish(row, x, job, asked, o) by {
      PostFinishes(req, apiKey, o);
    }
    FinishOnSuccess(row, x, job, asked, o);
  }

  lemma FinishOnSuccess(row: ImportRow, x: Extracted, job: NewJob, asked: seq<Effect>, o: Oracle)
    requires o.jobInsert.Ok? && o.doneUpdate.None?
    ensures var run := Finish(row, x, job, asked, o);
      run.response == Response(200, OkReply(o.jobInsert.value, None))
      && run.importRow == Some(row.(status := Done, createdJobId := o.jobInsert.value,
                                    payload := Some(Payload(x.title, x.company, x.location, x.salaryText))))
      && run.job == Some(job)
  {
  }

  /** With the page in hand and insights computed, the run is `Finish` on the extracted fields. */
  lemma PostFinishes(req: Request, apiKey: Option<string>, o: Oracle)
    requires o.user.Some? && req.body.Some? && !AllWs(UrlField(req.body.value))
    requires o.importInsert.None? && o.fetched.Ok?
    requires ComputeInsights(apiKey, o.modelReply).Ok?
    ensures var url := Trim(UrlField(req.body.value));
      var row := ProcessingRow(o.importId, o.user.value, url);
      var x := Extract(url, o.fetched.value);
      var job := NewJobFor(row.userId, url, x, ComputeInsights(apiKey, o.modelReply).value, o.today);
      Post(req, apiKey, o) == Finish(row, x, job, Asked(row, url, x, apiKey), o)
  {
    var url := Trim(UrlField(req.body.value));
    var row := ProcessingRow(o.importId, o.user.value, url);
    PostProcesses(req, apiKey, o);
    ProcessFetched(url, row, apiKey, o);
    AfterFetchFinishes(url, row, o.fetched.value, apiKey, o);
  }

  /** A failed `done` update is reported as a warning on a 200; the audit row stays `processing`. */
  lemma DoneUpdateFailureWarns(req: Request, apiKey: Option<string>, o: Oracle)
    requires o.user.Some? && req.body.Some? && !AllWs(UrlField(req.body.value))
    requires o.importInsert.None? && o.fetched.Ok? && o.jobInsert.Ok? && o.doneUpdate.Some?
    requires ComputeInsights(apiKey, o.modelReply).Ok?
    ensures var run := Post(req, apiKey, o);
      run.response == Response(200, OkReply(o.jobInsert.value,
                                            Some("Import created but failed to update import row: " + o.doneUpdate.value)))
      && run.importRow.Some? && run.importRow.value.status == Processing && run.job.Some?
  {
    var url := Trim(UrlField(req.body.value));
    var row := ProcessingRow(o.importId, o.user.value, url);
    var x := Extract(url, o.fetched.value);
    var job := NewJobFor(row.userId, url, x, ComputeInsights(apiKey, o.modelReply).value, o.today);
    var asked := Asked(row, url, x, apiKey);
    assert Post(req, apiKey, o) == Finish(row, x, job, asked, o) by {
      PostFinishes(req, apiKey, o);
    }
    FinishOnDoneUpdateError(row, x, job, asked, o);
  }

  lemma FinishOnDoneUpdateError(row: ImportRow, x: Extracted, job: NewJob, asked: seq<Effect>, o: Oracle)
    requires o.jobInsert.Ok? && o.doneUpdate.Some?
    ensures var run := Finish(row, x, job, asked, o);
      run.response == Response(200, OkReply(o.jobInsert.value,
                                            Some("Import created but failed to update import row: " + o.doneUpdate.value)))
      && run.importRow == Some(row) && run.job == Some(job)
  {
  }

  // ---------------------------------------------------------------------------
  // The bullet prefix

  /** `lines.split("\n")`. */
  function SplitLines(s: string): (r: seq<string>)
    ensures |r| >= 1
    decreases |s|
  {
    if |s| == 0 then [""]
    else if s[0] == '\n' then [""] + SplitLines(s[1..])
    else
      var rest := SplitLines(s[1..]);
      [[s[0]] + rest[0]] + rest[1..]
  }

  lemma {:induction false} SplitLineFree(a: string)
    requires NoNewline(a)
    ensures SplitLines(a) == [a]
  {
    if |a| > 0 {
      SplitLineFree(a[1..]);
      assert [a[0]] + a[1..] == a;
    }
  }

  lemma {:induction false} SplitAfterLine(a: string, b: string)
    requires NoNewline(a)
    ensures SplitLines(a + "\n" + b) == [a] + SplitLines(b)
    decreases |a|
  {
    if |a| == 0 {
      assert a + "\n" + b == "\n" + b;
      assert ("\n" + b)[1..] == b;
    } else {
      SplitAfterLine(a[1..], b);
      assert (a + "\n" + b)[1..] == a[1..] + "\n" + b;
      assert [a[0]] + a[1..] == a;
    }
  }

  /** Splitting the joined lines at newlines gives the lines back, when no line holds a newline. */
  lemma {:induction false} SplitJoinLines(lines: seq<string>)
    requires |lines| > 0
    requires forall i | 0 <= i < |lines| :: NoNewline(lines[i])
    ensures SplitLines(JoinLines(lines)) == lines
  {
    if |lines| == 1 {
      SplitLineFree(lines[0]);
    } else {
      SplitJoinLines(lines[1..]);
      SplitAfterLine(lines[0], JoinLines(lines[1..]));
      assert [lines[0]] + lines[1..] == lines;
    }
  }

  lemma PrefixedNoNewline(prefix: string, x: string)
    requires NoNewline(prefix) && NoNewline(x)
    ensures NoNewline(prefix + x)
  {
    assert forall i | |prefix| <= i < |prefix + x| :: (prefix + x)[i] == x[i - |prefix|];
  }

  /** Joined bullet lines split back into those lines, when neither the prefix nor any item holds a newline. */
  lemma BulletTextLines(prefix: string, items: seq<JsonValue>)
    requires |items| > 0 && NoNewline(prefix)
    requires forall i | 0 <= i < |items| :: NoNewline(Render(items[i]))
    ensures SplitLines(JoinLines(BulletLines(prefix, items))) == BulletLines(prefix, items)
  {
    var ls := BulletLines(prefix, items);
    forall i | 0 <= i < |items| ensures NoNewline(ls[i]) {
      PrefixedNoNewline(prefix, Render(items[i]));
    }
    SplitJoinLines(ls);
  }

  /**
   * The intended insight text reads back as one line per item, each the
   * U+2022 bullet, a space and the item's text, when no item holds a newline.
   */
  lemma InsightsTextLines(items: seq<JsonValue>)
    requires |items| > 0
    requires forall i | 0 <= i < |items| :: NoNewline(Render(items[i]))
    ensures var lines := SplitLines(InsightsText(items));
      |lines| == |items|
      && forall i | 0 <= i < |items| :: lines[i] == BulletPrefix + Render(items[i]) && lines[i][0] == '•'
  {
    BulletTextLines(BulletPrefix, items);
  }

  /**
   * The `ai_insights` text the route stores reads back as one line per
   * bullet item, each behind the prefix as the source spells it.
   */
  lemma StoredInsightsLines(apiKey: Option<string>, reply: Result<JsonValue>)
    requires HasKey(apiKey) && ComputeInsights(apiKey, reply).Ok?
    requires |BulletItems(reply.value).value| > 0
    requires forall i | 0 <= i < |BulletItems(reply.value).value| :: NoNewline(Render(BulletItems(reply.value).value[i]))
    ensures var items := BulletItems(reply.value).value;
      var lines := SplitLines(ComputeInsights(apiKey, reply).value.text);
      |lines| == |items| && forall i | 0 <= i < |items| :: lines[i] == BulletPrefixAsWritten + Render(items[i])
  {
    BulletTextLines(BulletPrefixAsWritten, BulletItems(reply.value).value);
  }

  /** The prefix the source spells is exactly the bullet's UTF-8 bytes read as Windows-1252. */
  lemma BulletPrefixAsWrittenIsMisdecoded()
    ensures Encoding.Cp1252(Encoding.Utf8(BulletPrefix)) == BulletPrefixAsWritten
  {
    assert Encoding.Utf8(BulletPrefix) == [0xE2, 0x80, 0xA2, 0x20];
  }

  /** As written, a single insight `x` is stored as `â€¢ x`, never with the bullet. */
  lemma InsightsTextAsWrittenShowsMojibake(item: string)
    ensures InsightsTextAsWritten([JStr(item)]) == "\U{E2}\U{20AC}\U{A2} " + item
    ensures InsightsTextAsWritten([JStr(item)]) != InsightsText([JStr(item)])
  {
    assert InsightsTextAsWritten([JStr(item)])[0] != InsightsText([JStr(item)])[0];
  }
}
