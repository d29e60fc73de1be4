/**
 * The list logic of components/jobs/jobs-table.tsx: the match score shown
 * for a row and its colour band, the filter over the loaded rows, the
 * checkbox selection, "Delete Selected", the request the import dialog
 * sends, how the dialog reacts to the answer, and the CV link written into
 * `ai_insights_json` afterwards.
 */
module JobsTable {
  import opened Outcomes
  import opened Strings
  import opened Json
  import opened Db
  import ImportRoute
  import opened CvVersions

  // ---------------------------------------------------------------------------
  // Match score

  /**
   * What `Number(raw)` makes of a score field: the field is null or
   * undefined, a finite number, or something that converts to NaN.
   */
  datatype RawScore = Missing | Num(x: real) | NaN

  /** A row of `v_job_applications_enriched`, with the columns the table reads. */
  datatype ListedJob = ListedJob(
    id: string,
    title: Option<string>,
    company: Option<string>,
    status: JobStatus,
    platform: Option<Platform>,
    workMode: Option<WorkMode>,
    matchScore: RawScore,
    insightsScore: RawScore)

  /** `Math.round`: the nearest integer, halves rounded up. */
  function Round(x: real): (k: int)
    ensures x - 0.5 < k as real <= x + 0.5
  {
    (x + 0.5).Floor
  }

  /** Any integer within half a unit (halves rounded up) is the rounded value. */
  lemma RoundUnique(x: real, k: int)
    requires x - 0.5 < k as real <= x + 0.5
    ensures Round(x) == k
  {
    var r := Round(x);
    assert (r - k) as real < 1.0 && (k - r) as real < 1.0;
  }

  /** `Math.max(0, Math.min(100, n))`. */
  function Clamp(n: int): (c: int)
    ensures 0 <= c <= 100
    ensures 0 <= n <= 100 ==> c == n
    ensures n < 0 ==> c == 0
    ensures n > 100 ==> c == 100
  {
    if n < 0 then 0 else if n > 100 then 100 else n
  }

  /** `row.match_score ?? row.ai_insights_json?.match_score ?? null`: only a missing value falls through. */
  function ChosenScore(row: ListedJob): (raw: RawScore)
    ensures !row.matchScore.Missing? ==> raw == row.matchScore
    ensures row.matchScore.Missing? ==> raw == row.insightsScore
  {
    if row.matchScore.Missing? then row.insightsScore else row.matchScore
  }

  /** The score a raw value shows as: NaN shows nothing, missing counts as `Number(null)`, that is 0. */
  function ScoreOf(raw: RawScore): (s: Option<int>)
    ensures s.None? <==> raw.NaN?
    ensures s.Some? ==> 0 <= s.value <= 100
  {
    match raw
    case NaN => None
    case Missing => Some(Clamp(Round(0.0)))
    case Num(x) => Some(Clamp(Round(x)))
  }

  function MatchScore(row: ListedJob): (s: Option<int>)
    ensures s.None? <==> ChosenScore(row).NaN?
    ensures s.Some? ==> 0 <= s.value <= 100
  {
    ScoreOf(ChosenScore(row))
  }

  /** A row with neither score shows 0, not "Not scored". */
  lemma UnscoredRowShowsZero(row: ListedJob)
    requires row.matchScore.Missing? && row.insightsScore.Missing?
    ensures MatchScore(row) == Some(0)
  {
  }

  /** The row's own score decides whenever it is present, whatever the insights hold. */
  lemma RowScoreWins(row: ListedJob, other: RawScore)
    requires !row.matchScore.Missing?
    ensures MatchScore(row) == MatchScore(row.(insightsScore := other))
  {
  }

  /**
   * A score in range shows as the nearest integer: never more than half a
   * point away; below the range it shows 0 and above it 100.
   */
  lemma ScoreIsNearestInRange(x: real)
    ensures -0.5 <= x < 100.5 ==>
      ScoreOf(Num(x)).value as real - 0.5 <= x < ScoreOf(Num(x)).value as real + 0.5
    ensures x < -0.5 ==> ScoreOf(Num(x)) == Some(0)
    ensures x >= 100.5 ==> ScoreOf(Num(x)) == Some(100)
  {
  }

  /** Whole percentages from 0 to 100 show unchanged. */
  lemma WholePercentShowsItself(k: int)
    requires 0 <= k <= 100
    ensures ScoreOf(Num(k as real)) == Some(k)
  {
    RoundUnique(k as real, k);
  }

  /** A higher raw score never shows lower. */
  lemma ScoreMonotone(x: real, y: real)
    requires x <= y
    ensures ScoreOf(Num(x)).value <= ScoreOf(Num(y)).value
  {
    assert x + 0.5 <= y + 0.5;
  }

  // ---------------------------------------------------------------------------
  // Score colour

  datatype Tone = Slate | Emerald | Amber | Rose

  /** The colour band of a score: slate when unscored, then rose, amber, emerald from 60 and 80 up. */
  function ScoreTone(score: Option<int>): (t: Tone)
    ensures t == Slate <==> score.None?
    ensures t == Emerald <==> score.Some? && score.value >= 80
    ensures t == Amber <==> score.Some? && 60 <= score.value < 80
    ensures t == Rose <==> score.Some? && score.value < 60
  {
    if score.None? then Slate
    else if score.value >= 80 then Emerald
    else if score.value >= 60 then Amber
    else Rose
  }

  /** The CSS classes of each band. */
  function ToneClasses(t: Tone): string {
    match t
    case Slate => "bg-slate-100 text-slate-700"
    case Emerald => "bg-emerald-100 text-emerald-700"
    case Amber => "bg-amber-100 text-amber-700"
    case Rose => "bg-rose-100 text-rose-700"
  }

  function ToneRank(t: Tone): nat {
    match t
    case Slate => 0
    case Rose => 0
    case Amber => 1
    case Emerald => 2
  }

  /** Bands rise with the score: a higher score never gets a lower band. */
  lemma ToneMonotone(a: int, b: int)
    requires a <= b
    ensures ToneRank(ScoreTone(Some(a))) <= ToneRank(ScoreTone(Some(b)))
  {
  }

  /** The label of the score column: "Not scored" or the percentage. */
  function ScoreLabel(score: Option<int>): (s: string)
    ensures score.None? <==> s == "Not scored"
  {
    if score.None? then "Not scored"
    else
      var s := IntText(score.value) + "%";
      assert s[|s| - 1] == '%';
      s
  }

  // ---------------------------------------------------------------------------
  // Filter

  /** The filter state: title and company are substrings, the rest exact values or blank. */
  datatype Filter = Filter(title: string, company: string, status: string, platform: string, workMode: string)

  const NoFilter := Filter("", "", "", "", "")

  /** `value?.toLowerCase().includes(needle.toLowerCase())`: a null value never matches. */
  predicate TextMatches(value: Option<string>, needle: string) {
    value.Some? && Contains(Lower(value.value), Lower(needle))
  }

  /** `!wanted || actual === wanted`. */
  predicate BlankOrEqual(wanted: string, actual: Option<string>) {
    wanted == "" || actual == Some(wanted)
  }

  function PlatformText(p: Option<Platform>): Option<string> {
    if p.Some? then Some(PlatformName(p.value)) else None
  }

  function WorkModeText(m: Option<WorkMode>): Option<string> {
    if m.Some? then Some(WorkModeName(m.value)) else None
  }

  predicate Keeps(f: Filter, row: ListedJob) {
    && TextMatches(row.title, f.title)
    && TextMatches(row.company, f.company)
    && BlankOrEqual(f.status, Some(StatusName(row.status)))
    && BlankOrEqual(f.platform, PlatformText(row.platform))
    && BlankOrEqual(f.workMode, WorkModeText(row.workMode))
  }

  /** `a` keeps some of the elements of `b`, in `b`'s order. */
  ghost predicate IsSubsequence<T>(a: seq<T>, b: seq<T>)
    decreases |b|
  {
    |a| == 0 || (|b| > 0 && (if a[0] == b[0] then IsSubsequence(a[1..], b[1..]) else IsSubsequence(a, b[1..])))
  }

  /** `data.filter(...)`. */
  function FilterRows(data: seq<ListedJob>, f: Filter): (r: seq<ListedJob>)
    ensures |r| <= |data|
  {
    if |data| == 0 then []
    else
      var rest := FilterRows(data[1..], f);
      if Keeps(f, data[0]) then [data[0]] + rest else rest
  }

  /** The table shows exactly the loaded rows the filter keeps. */
  lemma {:induction false} FilterRowsMembers(data: seq<ListedJob>, f: Filter)
    ensures forall row :: row in FilterRows(data, f) <==> row in data && Keeps(f, row)
  {
    if |data| > 0 {
      FilterRowsMembers(data[1..], f);
      assert forall row :: row in data <==> row == data[0] || row in data[1..];
    }
  }

  /** The kept rows are in the order they were loaded. */
  lemma {:induction false} FilterKeepsOrder(data: seq<ListedJob>, f: Filter)
    ensures IsSubsequence(FilterRows(data, f), data)
  {
    if |data| > 0 {
      FilterKeepsOrder(data[1..], f);
      var r := FilterRows(data, f);
      if Keeps(f, data[0]) {
        assert r[1..] == FilterRows(data[1..], f);
      } else {
        FilterRowsMembers(data[1..], f);
        assert |r| > 0 ==> r[0] in r;
      }
    }
  }

  /** Filtering a concatenation filters each part. */
  lemma {:induction false} FilterRowsAppend(a: seq<ListedJob>, b: seq<ListedJob>, f: Filter)
    ensures FilterRows(a + b, f) == FilterRows(a, f) + FilterRows(b, f)
  {
    if |a| == 0 {
      assert a + b == b;
    } else {
      FilterRowsAppend(a[1..], b, f);
      assert a == [a[0]] + a[1..];
      assert a + b == [a[0]] + (a[1..] + b);
      FilterCons(a[0], a[1..], f);
      FilterCons(a[0], a[1..] + b, f);
    }
  }

  lemma FilterCons(x: ListedJob, rest: seq<ListedJob>, f: Filter)
    ensures FilterRows([x] + rest, f) == (if Keeps(f, x) then [x] else []) + FilterRows(rest, f)
  {
    assert ([x] + rest)[1..] == rest;
  }

  /** Applying the same filter to its own output changes nothing. */
  lemma {:induction false} FilterRowsIdempotent(data: seq<ListedJob>, f: Filter)
    ensures FilterRows(FilterRows(data, f), f) == FilterRows(data, f)
  {
    if |data| > 0 {
      FilterRowsIdempotent(data[1..], f);
      if Keeps(f, data[0]) {
        assert ([data[0]] + FilterRows(data[1..], f))[1..] == FilterRows(data[1..], f);
      }
    }
  }

  /** The empty filter still drops rows without a title or a company, and keeps every other row. */
  lemma NoFilterKeepsNamedRows(row: ListedJob)
    ensures Keeps(NoFilter, row) <==> row.title.Some? && row.company.Some?
  {
    if row.title.Some? {
      assert IsPrefix("", Lower(row.title.value));
    }
    if row.company.Some? {
      assert IsPrefix("", Lower(row.company.value));
    }
  }

  /** The title and company tests are case-insensitive substring searches. */
  lemma TextMatchIgnoresCase(value: string, needle: string)
    ensures TextMatches(Some(value), needle) <==> HasIgnoringCase(value, needle)
  {
    LowerIdempotent(needle);
    ContainsLowerIff(value, Lower(needle));
    forall i ensures MatchesAtIgnoringCase(value, Lower(needle), i) <==> MatchesAtIgnoringCase(value, needle, i) {
      assert forall k | 0 <= k < |needle| :: LowerChar(Lower(needle)[k]) == LowerChar(needle[k]);
    }
  }

  // ---------------------------------------------------------------------------
  // Selection

  predicate NoDup<T(==)>(s: seq<T>) {
    forall i, j | 0 <= i < j < |s| :: s[i] != s[j]
  }

  /** `[...new Set(s)]`: the first occurrence of each element, in order. */
  function Dedup(s: seq<string>): (r: seq<string>)
    ensures NoDup(r)
    ensures forall x :: x in r <==> x in s
  {
    if |s| == 0 then []
    else
      var init := Dedup(s[..|s| - 1]);
      assert forall x :: x in s <==> x in s[..|s| - 1] || x == s[|s| - 1];
      if s[|s| - 1] in init then init else init + [s[|s| - 1]]
  }

  /** A list without duplicates is its own set. */
  lemma {:induction false} DedupOfNoDup(s: seq<string>)
    requires NoDup(s)
    ensures Dedup(s) == s
  {
    if |s| > 0 {
      DedupOfNoDup(s[..|s| - 1]);
      assert s[..|s| - 1] + [s[|s| - 1]] == s;
    }
  }

  /** Ticking a row's box: `[...new Set([...prev, id])]`. */
  function Check(selected: seq<string>, id: string): (r: seq<string>)
    ensures NoDup(r)
    ensures forall x :: x in r <==> x in selected || x == id
  {
    Dedup(selected + [id])
  }

  /** On a selection without duplicates, ticking appends a new id and leaves a present one alone. */
  lemma CheckAppendsOnce(selected: seq<string>, id: string)
    requires NoDup(selected)
    ensures Check(selected, id) == if id in selected then selected else selected + [id]
  {
    DedupOfNoDup(selected);
    assert (selected + [id])[..|selected|] == selected;
    if id !in selected {
      assert NoDup(selected + [id]);
      DedupOfNoDup(selected + [id]);
    }
  }

  /** Unticking: `prev.filter((x) => x !== id)`. */
  function Uncheck(selected: seq<string>, id: string): (r: seq<string>)
    ensures forall x :: x in r <==> x in selected && x != id
    ensures NoDup(selected) ==> NoDup(r)
    ensures id !in selected ==> r == selected
    ensures |r| <= |selected|
  {
    if |selected| == 0 then []
    else
      var rest := Uncheck(selected[1..], id);
      assert forall x :: x in selected <==> x == selected[0] || x in selected[1..];
      assert NoDup(selected) ==> selected[0] !in selected[1..] && NoDup(selected[1..]);
      if selected[0] == id then rest
      else
        assert id !in selected ==> rest == selected[1..];
        [selected[0]] + rest
  }

  /** Unticking a box just ticked restores the selection. */
  lemma UncheckUndoesCheck(selected: seq<string>, id: string)
    requires NoDup(selected) && id !in selected
    ensures Uncheck(Check(selected, id), id) == selected
  {
    CheckAppendsOnce(selected, id);
    UncheckAppended(selected, id);
  }

  lemma {:induction false} UncheckAppended(s: seq<string>, id: string)
    requires id !in s
    ensures Uncheck(s + [id], id) == s
  {
    if |s| == 0 {
      assert s + [id] == [id];
    } else {
      UncheckAppended(s[1..], id);
      assert (s + [id])[1..] == s[1..] + [id];
      assert [s[0]] + s[1..] == s;
    }
  }

  // ---------------------------------------------------------------------------
  // Delete Selected

  /** The rows whose id is not in `ids`, in order. */
  function RowsWithout(data: seq<ListedJob>, ids: seq<string>): (r: seq<ListedJob>)
    ensures forall row :: row in r <==> row in data && row.id !in ids
    ensures |r| <= |data|
  {
    if |data| == 0 then []
    else
      var rest := RowsWithout(data[1..], ids);
      assert forall row :: row in data <==> row == data[0] || row in data[1..];
      if data[0].id in ids then rest else [data[0]] + rest
  }

  /** The table after "Delete Selected": rows, selection, and the alert shown, if any. */
  datatype DeleteOutcome = DeleteOutcome(data: seq<ListedJob>, selected: seq<string>, alert: Option<string>, requested: bool)

  /**
   * An empty selection does nothing; otherwise the delete request is sent
   * and either its error is shown with nothing changed, or the selected
   * rows leave the table and the selection is cleared.
   */
  function DeleteSelected(data: seq<ListedJob>, selected: seq<string>, dbError: Option<string>): (out: DeleteOutcome)
    ensures |selected| == 0 ==> out == DeleteOutcome(data, selected, None, false)
    ensures |selected| > 0 ==> out.requested
    ensures |selected| > 0 && dbError.Some? ==>
      out.data == data && out.selected == selected && out.alert == dbError
    ensures |selected| > 0 && dbError.None? ==>
      out.selected == [] && out.alert.None?
      && forall row :: row in out.data <==> row in data && row.id !in selected
  {
    if |selected| == 0 then DeleteOutcome(data, selected, None, false)
    else if dbError.Some? then DeleteOutcome(data, selected, dbError, true)
    else DeleteOutcome(RowsWithout(data, selected), [], None, true)
  }

  /** A successful delete keeps the surviving rows in their order. */
  lemma {:induction false} DeleteKeepsOrder(data: seq<ListedJob>, ids: seq<string>)
    ensures IsSubsequence(RowsWithout(data, ids), data)
  {
    if |data| > 0 {
      DeleteKeepsOrder(data[1..], ids);
      var r := RowsWithout(data, ids);
      if data[0].id !in ids {
        assert r[1..] == RowsWithout(data[1..], ids);
      }
    }
  }

  /** A successful delete leaves nothing more to delete: pressing again is a no-op. */
  lemma DeleteTwice(data: seq<ListedJob>, selected: seq<string>, e: Option<string>)
    requires |selected| > 0
    ensures var once := DeleteSelected(data, selected, None);
      var again := DeleteSelected(once.data, once.selected, e);
      again.data == once.data && again.selected == [] && again.alert.None? && !again.requested
  {
  }

  // ---------------------------------------------------------------------------
  // The import dialog

  datatype EntryMode = UrlMode | ManualMode

  /** `cvs.find((item) => item.id === id)`. */
  function FindCv(cvs: seq<CvVersion>, id: string): (r: Option<CvVersion>)
    ensures r.None? <==> forall i | 0 <= i < |cvs| :: cvs[i].id != id
    ensures r.Some? ==> r.value in cvs && r.value.id == id
    ensures r.Some? ==> exists i | 0 <= i < |cvs| :: cvs[i] == r.value && forall k | 0 <= k < i :: cvs[k].id != id
  {
    if |cvs| == 0 then None
    else if cvs[0].id == id then Some(cvs[0])
    else
      var r := FindCv(cvs[1..], id);
      assert r.Some? ==> exists i | 1 <= i < |cvs| :: cvs[i] == r.value && forall k | 0 <= k < i :: cvs[k].id != id by {
        if r.Some? {
          var j :| 0 <= j < |cvs[1..]| && cvs[1..][j] == r.value && forall k | 0 <= k < j :: cvs[1..][k].id != id;
          assert cvs[j + 1] == r.value;
          assert forall k | 0 <= k < j + 1 :: cvs[k].id != id by {
            forall k | 0 <= k < j + 1 ensures cvs[k].id != id {
              if k > 0 { assert cvs[k] == cvs[1..][k - 1]; }
            }
          }
        }
      }
      r
  }

  /** The CV selected when the dialog loads: the first default one, else the first one. */
  function InitialCvId(cvs: seq<CvVersion>): (r: Option<string>)
    ensures r.None? <==> |cvs| == 0
    ensures (exists i | 0 <= i < |cvs| :: cvs[i].isDefault) ==> r.Some? && exists i | 0 <= i < |cvs| ::
      cvs[i].isDefault && cvs[i].id == r.value && forall k | 0 <= k < i :: !cvs[k].isDefault
    ensures (forall i | 0 <= i < |cvs| :: !cvs[i].isDefault) && |cvs| > 0 ==> r == Some(cvs[0].id)
  {
    if |cvs| == 0 then None
    else match FirstDefault(cvs)
      case Some(cv) => Some(cv.id)
      case None => Some(cvs[0].id)
  }

  /** On a well-formed list the dialog starts with the default version selected. */
  lemma InitialCvIsDefault(cvs: seq<CvVersion>)
    requires Wellformed(cvs) && |cvs| > 0
    ensures InitialCvId(cvs).Some?
    ensures forall i | 0 <= i < |cvs| && cvs[i].id == InitialCvId(cvs).value :: cvs[i].isDefault
  {
    var d :| d in cvs && d.isDefault && forall y | y in cvs && y.isDefault :: y.id == d.id;
    var k :| 0 <= k < |cvs| && cvs[k].isDefault && cvs[k].id == InitialCvId(cvs).value;
    forall i | 0 <= i < |cvs| && cvs[i].id == InitialCvId(cvs).value ensures cvs[i].isDefault {
      assert i == k;
    }
  }

  /** `cvs.find((item) => item.isDefault)`: the first default version. */
  function FirstDefault(cvs: seq<CvVersion>): (r: Option<CvVersion>)
    ensures r.None? <==> forall i | 0 <= i < |cvs| :: !cvs[i].isDefault
    ensures r.Some? ==> r.value in cvs && r.value.isDefault
    ensures r.Some? ==> exists i | 0 <= i < |cvs| :: cvs[i] == r.value && forall k | 0 <= k < i :: !cvs[k].isDefault
  {
    if |cvs| == 0 then None
    else if cvs[0].isDefault then Some(cvs[0])
    else
      assert forall i | 1 <= i < |cvs| :: cvs[i] == cvs[1..][i - 1];
      var r := FirstDefault(cvs[1..]);
      assert r.Some? ==> exists i | 1 <= i < |cvs| :: cvs[i] == r.value && forall k | 0 <= k < i :: !cvs[k].isDefault by {
        if r.Some? {
          var j :| 0 <= j < |cvs[1..]| && cvs[1..][j] == r.value && forall k | 0 <= k < j :: !cvs[1..][k].isDefault;
          assert cvs[j + 1] == r.value;
          forall k | 0 <= k < j + 1 ensures !cvs[k].isDefault {
            if k > 0 { assert cvs[k] == cvs[1..][k - 1]; }
          }
        }
      }
      r
  }

  /** `cvText`: summary and skills of the selected CV on two lines, or empty. */
  function CvText(cvs: seq<CvVersion>, selectedId: string): (t: string)
    ensures FindCv(cvs, selectedId).None? ==> t == ""
    ensures FindCv(cvs, selectedId).Some? ==>
      var cv := FindCv(cvs, selectedId).value; t == cv.summary + "\n" + cv.skills
  {
    match FindCv(cvs, selectedId)
    case None => ""
    case Some(cv) => cv.summary + "\n" + cv.skills
  }

  /** The JSON body posted to `/api/import`; `content` is sent only in manual mode. */
  function ImportBody(mode: EntryMode, sourceUrl: string, pageContent: string, cvs: seq<CvVersion>, selectedId: string): (b: JsonValue)
    ensures b.JObj? && b.fields.Keys == {"url", "content", "cvText"}
    ensures b.fields["url"] == JStr(sourceUrl)
    ensures b.fields["content"] == JStr(if mode == ManualMode then pageContent else "")
    ensures b.fields["cvText"] == JStr(CvText(cvs, selectedId))
  {
    JObj(map[
      "url" := JStr(sourceUrl),
      "content" := JStr(if mode == ManualMode then pageContent else ""),
      "cvText" := JStr(CvText(cvs, selectedId))])
  }

  /** The submit button is enabled unless a request is pending or both URL and pasted text are blank. */
  function SubmitEnabled(pending: bool, sourceUrl: string, pageContent: string): (enabled: bool)
    ensures enabled <==> !pending && !(AllWs(sourceUrl) && AllWs(pageContent))
  {
    TrimEmptyIff(sourceUrl);
    TrimEmptyIff(pageContent);
    !pending && !(Trim(sourceUrl) == "" && Trim(pageContent) == "")
  }

  /**
   * The route reads the URL the dialog sends: pasted text with a blank URL
   * can be submitted, but the signed-in request is always answered 400
   * "URL is required" and nothing is stored.
   */
  lemma ManualPasteWithoutUrlIsRejected(
    sourceUrl: string, pageContent: string, cvs: seq<CvVersion>, selectedId: string,
    apiKey: Option<string>, o: ImportRoute.Oracle)
    requires SubmitEnabled(false, sourceUrl, pageContent) && AllWs(sourceUrl)
    requires o.user.Some?
    ensures !AllWs(pageContent)
    ensures var run := ImportRoute.Post(ImportRoute.Request(Some(ImportBody(ManualMode, sourceUrl, pageContent, cvs, selectedId))), apiKey, o);
      run.response == ImportRoute.Response(400, ImportRoute.ErrorReply("URL is required")) && run.effects == []
  {
    var body := ImportBody(ManualMode, sourceUrl, pageContent, cvs, selectedId);
    UrlFieldOfString(body, sourceUrl);
    ImportRoute.BlankUrlIsRejected(body, apiKey, o);
  }

  /** A string `url` member is read back as itself. */
  lemma UrlFieldOfString(body: JsonValue, url: string)
    requires body.JObj? && "url" in body.fields && body.fields["url"] == JStr(url)
    ensures ImportRoute.UrlField(body) == url
  {
  }

  /** What the dialog does with the route's answer. */
  datatype ImportReaction = Alerted(message: string) | Imported(jobId: string)

  /** `if (!res.ok || !payload?.jobId) return alert(payload.error || "AI import failed.")`. */
  function ReactTo(resp: ImportRoute.Response): (r: ImportReaction)
    ensures r.Imported? <==>
      200 <= resp.status < 300 && resp.reply.OkReply? && ImportRoute.Present(resp.reply.jobId)
    ensures r.Imported? ==> r.jobId == resp.reply.jobId.value
    ensures r.Alerted? && resp.reply.ErrorReply? && resp.reply.error != "" ==> r.message == resp.reply.error
    ensures r.Alerted? && resp.reply.OkReply? ==> r.message == "AI import failed."
  {
    var ok := 200 <= resp.status < 300;
    var jobId := if resp.reply.OkReply? then resp.reply.jobId else None;
    if ok && ImportRoute.Present(jobId) then Imported(jobId.value)
    else
      var error := if resp.reply.ErrorReply? then resp.reply.error else "";
      Alerted(OrElse(error, "AI import failed."))
  }

  /** Every error message of the route is non-empty, so the dialog shows the route's own words. */
  lemma RouteErrorsAreShown(req: ImportRoute.Request, apiKey: Option<string>, o: ImportRoute.Oracle)
    requires ImportRoute.Post(req, apiKey, o).response.status != 200
    ensures ImportRoute.Post(req, apiKey, o).response.reply.ErrorReply?
    ensures ReactTo(ImportRoute.Post(req, apiKey, o).response) == Alerted(ImportRoute.Post(req, apiKey, o).response.reply.error)
  {
    ImportRoute.PostGuarantees(req, apiKey, o);
  }

  // ---------------------------------------------------------------------------
  // Linking the chosen CV

  /** The keys an object spread copies from an array or a string: their indexes. */
  function IndexFields(xs: seq<JsonValue>): (m: map<string, JsonValue>)
    ensures forall i | 0 <= i < |xs| :: Decimal(i) in m
  {
    if |xs| == 0 then map[]
    else IndexFields(xs[..|xs| - 1])[Decimal(|xs| - 1) := xs[|xs| - 1]]
  }

  /** `{...v}`: the fields of an object, the indexes of an array or string, nothing for other values. */
  function Spread(v: Option<JsonValue>): map<string, JsonValue> {
    match v
    case None => map[]
    case Some(JObj(m)) => m
    case Some(JArr(xs)) => IndexFields(xs)
    case Some(JStr(s)) => IndexFields(seq(|s|, i requires 0 <= i < |s| => JStr([s[i]])))
    case Some(_) => map[]
  }

  const CvIdKey := "cv_version_id"
  const CvNameKey := "cv_version_name"

  /**
   * The new `ai_insights_json` after an import with a CV selected: every
   * existing key kept, the CV's id and name set.
   */
  function LinkCv(existing: Option<JsonValue>, cv: CvVersion): (r: JsonValue)
    ensures r.JObj?
    ensures r.fields.Keys == Spread(existing).Keys + {CvIdKey, CvNameKey}
    ensures r.fields[CvIdKey] == JStr(cv.id) && r.fields[CvNameKey] == JStr(cv.name)
    ensures forall k | k in Spread(existing) && k != CvIdKey && k != CvNameKey :: r.fields[k] == Spread(existing)[k]
  {
    JObj(Spread(existing)[CvIdKey := JStr(cv.id)][CvNameKey := JStr(cv.name)])
  }

  /** Linking the same CV again changes nothing. */
  lemma LinkCvIdempotent(existing: Option<JsonValue>, cv: CvVersion)
    ensures LinkCv(Some(LinkCv(existing, cv)), cv) == LinkCv(existing, cv)
  {
    var once := LinkCv(existing, cv);
    var twice := LinkCv(Some(once), cv);
    assert twice.fields == once.fields;
  }

  /** Linking another CV replaces the link: only the latest CV is recorded. */
  lemma LatestCvWins(existing: Option<JsonValue>, first: CvVersion, second: CvVersion)
    ensures LinkCv(Some(LinkCv(existing, first)), second) == LinkCv(existing, second)
  {
    var a := LinkCv(Some(LinkCv(existing, first)), second);
    var b := LinkCv(existing, second);
    assert a.fields == b.fields;
  }
}
