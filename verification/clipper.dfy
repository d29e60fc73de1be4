/**
 * The browser extension's "Add Job" click handler: it normalises the
 * MyHire address typed into the panel, scrapes the current tab into a
 * `content` string, attaches an optional CV file, and hands the payload to
 * the background relay, which posts it to `/api/import`.
 */
module Clipper {
  import opened Outcomes
  import opened Strings
  import opened Json
  import ImportRoute

  const VisibleLimit: nat := 12000
  const UntitledRole := "Untitled role"
  const NeedBaseUrl := "Please provide your MyHire URL."
  const CvReadFailed := "CV selected, but text extraction failed (binary format). Continuing without CV text."
  const Submitting := "Submitting job to MyHire..."

  // ---------------------------------------------------------------------------
  // The MyHire address

  /** `.replace(/\/$/, "")`: a single trailing slash is removed. */
  function DropTrailingSlash(s: string): (r: string)
    ensures r == s || r + "/" == s
    ensures r == s <==> |s| == 0 || s[|s| - 1] != '/'
  {
    if |s| > 0 && s[|s| - 1] == '/' then
      assert s[..|s| - 1] + "/" == s;
      s[..|s| - 1]
    else s
  }

  /** `baseUrlInput.value.trim().replace(/\/$/, "")`. */
  function BaseUrl(input: string): (r: string)
    ensures r == Trim(input) || r + "/" == Trim(input)
  {
    DropTrailingSlash(Trim(input))
  }

  /** The address is empty exactly when the field is blank or holds a lone slash. */
  lemma BaseUrlEmptyIff(input: string)
    ensures BaseUrl(input) == "" <==> AllWs(input) || Trim(input) == "/"
  {
    TrimEmptyIff(input);
    var t := Trim(input);
    if BaseUrl(input) == "" && t != "" {
      assert t == "" + "/";
    }
  }

  /**
   * Only one slash goes: an address typed with a doubled trailing slash
   * still ends in `/`, and normalising it again would change it.
   */
  lemma OnlyOneSlashDropped(input: string)
    requires var t := Trim(input); |t| >= 2 && t[|t| - 1] == '/' && t[|t| - 2] == '/'
    ensures var b := BaseUrl(input); |b| > 0 && b[|b| - 1] == '/' && BaseUrl(b) != b
  {
    var t := Trim(input);
    var b := BaseUrl(input);
    assert b == t[..|t| - 1];
    assert IsTrimmed(b) by {
      assert b[0] == t[0];
    }
    TrimOfTrimmed(b);
  }

  // ---------------------------------------------------------------------------
  // Whitespace collapse: `.replace(/\s+/g, " ")`

  /** The characters of `s` that are not whitespace, in order. */
  function NonWs(s: string): string {
    if |s| == 0 then ""
    else (if IsWs(s[0]) then "" else [s[0]]) + NonWs(s[1..])
  }

  /** Whitespace only as single spaces, never two whitespace characters in a row. */
  predicate Collapsed(r: string) {
    forall i | 0 <= i < |r| :: SingleSpaceAt(r, i)
  }

  /** Whitespace at `i` is a space, and the next character is not whitespace. */
  predicate SingleSpaceAt(r: string, i: nat)
    requires i < |r|
  {
    IsWs(r[i]) ==> r[i] == ' ' && (i + 1 < |r| ==> !IsWs(r[i + 1]))
  }

  lemma {:induction false} NonWsTrimStart(s: string)
    ensures NonWs(TrimStart(s)) == NonWs(s)
    decreases |s|
  {
    if |s| > 0 && IsWs(s[0]) {
      NonWsTrimStart(s[1..]);
    }
  }

  /**
   * Every maximal run of whitespace becomes one space. The result keeps the
   * non-whitespace characters, and starts and ends with whitespace exactly
   * when the input does.
   */
  function CollapseWs(s: string): (r: string)
    ensures Collapsed(r)
    ensures NonWs(r) == NonWs(s)
    ensures |r| <= |s| && (|r| == 0 <==> |s| == 0)
    ensures |s| > 0 ==> (IsWs(r[0]) <==> IsWs(s[0]))
    ensures |s| > 0 ==> (IsWs(r[|r| - 1]) <==> IsWs(s[|s| - 1]))
    decreases |s|
  {
    if |s| == 0 then ""
    else if IsWs(s[0]) then
      var t := TrimStart(s[1..]);
      NonWsTrimStart(s[1..]);
      var rest := CollapseWs(t);
      ConsCollapsed(' ', rest);
      LastAfterTrimStart(s);
      " " + rest
    else
      var rest := CollapseWs(s[1..]);
      ConsCollapsed(s[0], rest);
      [s[0]] + rest
  }

  /** One character in front of a collapsed string keeps it collapsed unless it starts a second whitespace. */
  lemma ConsCollapsed(c: char, rest: string)
    requires Collapsed(rest)
    requires IsWs(c) ==> c == ' ' && (|rest| == 0 || !IsWs(rest[0]))
    ensures Collapsed([c] + rest)
    ensures NonWs([c] + rest) == (if IsWs(c) then "" else [c]) + NonWs(rest)
  {
    var r := [c] + rest;
    assert r[1..] == rest;
    forall i | 0 <= i < |r|
      ensures SingleSpaceAt(r, i)
    {
      if i > 0 {
        assert SingleSpaceAt(rest, i - 1);
        assert r[i] == rest[i - 1];
        if i + 1 < |r| { assert r[i + 1] == rest[i]; }
      }
    }
  }

  /** After a leading whitespace character, `TrimStart` of the tail is empty or ends where `s` ends. */
  lemma LastAfterTrimStart(s: string)
    requires |s| > 0 && IsWs(s[0])
    ensures var t := TrimStart(s[1..]);
      (|t| == 0 ==> IsWs(s[|s| - 1])) && (|t| > 0 ==> t[|t| - 1] == s[|s| - 1])
  {
    var t := TrimStart(s[1..]);
    if |t| == 0 {
      if |s| > 1 {
        assert s[1..][..|s| - 1] == s[1..];
        assert s[1..][|s| - 2] == s[|s| - 1];
      }
    } else {
      assert t == s[1..][|s| - 1 - |t|..];
    }
  }

  /** `TrimStart` removes leading whitespace up to a character that is not whitespace. */
  lemma {:induction false} TrimStartOverWs(w: string, v: string)
    requires AllWs(w) && (|v| == 0 || !IsWs(v[0]))
    ensures TrimStart(w + v) == v
    decreases |w|
  {
    if |w| == 0 {
      assert w + v == v;
      TrimStartOfUnspaced(v);
    } else {
      assert (w + v)[0] == w[0];
      assert (w + v)[1..] == w[1..] + v;
      TrimStartOverWs(w[1..], v);
    }
  }

  /** Text after a part that is not all whitespace is kept whole by `TrimStart`. */
  lemma {:induction false} TrimStartAppend(a: string, b: string)
    requires !AllWs(a)
    ensures TrimStart(a + b) == TrimStart(a) + b
    decreases |a|
  {
    var k :| 0 <= k < |a| && !IsWs(a[k]);
    assert (a + b)[0] == a[0];
    if IsWs(a[0]) {
      assert a[1..][k - 1] == a[k];
      assert (a + b)[1..] == a[1..] + b;
      TrimStartAppend(a[1..], b);
    } else {
      TrimStartOfUnspaced(a);
      TrimStartOfUnspaced(a + b);
    }
  }

  /**
   * A run of whitespace between a part that does not end in whitespace and
   * one that does not start with it becomes exactly one space, and the two
   * parts are collapsed on their own.
   */
  lemma {:induction false} CollapseJoinsRuns(u: string, w: string, v: string)
    requires |u| == 0 || !IsWs(u[|u| - 1])
    requires |w| > 0 && AllWs(w)
    requires |v| == 0 || !IsWs(v[0])
    ensures CollapseWs(u + w + v) == CollapseWs(u) + " " + CollapseWs(v)
    decreases |u|
  {
    if |u| == 0 {
      JoinRunAtStart(u, w, v);
    } else if IsWs(u[0]) {
      var tail := u[1..];
      assert tail[|tail| - 1] == u[|u| - 1];
      var t := TrimStart(tail);
      assert |t| > 0 by {
        assert tail[..|tail|] == tail;
      }
      assert t[|t| - 1] == tail[|tail| - 1];
      CollapseJoinsRuns(t, w, v);
      JoinRunAfterWs(u, w, v);
    } else {
      assert |u| == 1 || u[1..][|u| - 2] == u[|u| - 1];
      CollapseJoinsRuns(u[1..], w, v);
      JoinRunAfterChar(u, w, v);
    }
  }

  lemma JoinRunAtStart(u: string, w: string, v: string)
    requires |u| == 0 && |w| > 0 && AllWs(w)
    requires |v| == 0 || !IsWs(v[0])
    ensures CollapseWs(u + w + v) == CollapseWs(u) + " " + CollapseWs(v)
  {
    EmptyFront(u, w, v);
    RunThenText(w, v);
    EmptyJoin(CollapseWs(u), CollapseWs(v));
  }

  // Plain concatenation identities, kept out of proofs where `CollapseWs` is in scope.

  lemma EmptyFront(u: string, w: string, v: string)
    requires |u| == 0
    ensures u + w + v == w + v
  {
  }

  lemma EmptyJoin(e: string, b: string)
    requires e == ""
    ensures e + " " + b == " " + b
  {
  }

  /** A leading run of whitespace becomes one space in front of the collapsed rest. */
  lemma RunThenText(w: string, v: string)
    requires |w| > 0 && AllWs(w)
    requires |v| == 0 || !IsWs(v[0])
    ensures CollapseWs(w + v) == " " + CollapseWs(v)
  {
    HeadTail(w, v);
    TrimStartOverWs(w[1..], v);
    CollapseWsAtWs(w + v);
  }

  lemma HeadTail(w: string, v: string)
    requires |w| > 0
    ensures (w + v)[0] == w[0] && (w + v)[1..] == w[1..] + v
  {
  }

  lemma JoinRunAfterWs(u: string, w: string, v: string)
    requires |u| > 1 && IsWs(u[0]) && !IsWs(u[|u| - 1])
    requires CollapseWs(TrimStart(u[1..]) + w + v) == CollapseWs(TrimStart(u[1..])) + " " + CollapseWs(v)
    ensures CollapseWs(u + w + v) == CollapseWs(u) + " " + CollapseWs(v)
  {
    assert u[1..][|u| - 2] == u[|u| - 1];
    CollapseWsAtWsOfConcat(u, w, v);
    CollapseWsAtWs(u);
    ConsJoin(" ", CollapseWs(TrimStart(u[1..])), CollapseWs(v));
  }

  lemma CollapseWsAtWsOfConcat(u: string, w: string, v: string)
    requires |u| > 0 && IsWs(u[0]) && !AllWs(u[1..])
    ensures CollapseWs(u + w + v) == " " + CollapseWs(TrimStart(u[1..]) + w + v)
  {
    assert (u + w + v)[0] == u[0] && (u + w + v)[1..] == u[1..] + w + v;
    TrimStartAppend3(u[1..], w, v);
    CollapseWsAtWs(u + w + v);
  }

  lemma TrimStartAppend3(a: string, w: string, v: string)
    requires !AllWs(a)
    ensures TrimStart(a + w + v) == TrimStart(a) + w + v
  {
    assert a + w + v == a + (w + v);
    TrimStartAppend(a, w + v);
    assert TrimStart(a) + (w + v) == TrimStart(a) + w + v;
  }

  lemma JoinRunAfterChar(u: string, w: string, v: string)
    requires |u| > 0 && !IsWs(u[0])
    requires CollapseWs(u[1..] + w + v) == CollapseWs(u[1..]) + " " + CollapseWs(v)
    ensures CollapseWs(u + w + v) == CollapseWs(u) + " " + CollapseWs(v)
  {
    CollapseWsAtCharOfConcat(u, w, v);
    CollapseWsAtChar(u);
    ConsJoin([u[0]], CollapseWs(u[1..]), CollapseWs(v));
  }

  lemma CollapseWsAtCharOfConcat(u: string, w: string, v: string)
    requires |u| > 0 && !IsWs(u[0])
    ensures CollapseWs(u + w + v) == [u[0]] + CollapseWs(u[1..] + w + v)
  {
    assert (u + w + v)[0] == u[0] && (u + w + v)[1..] == u[1..] + w + v;
    CollapseWsAtChar(u + w + v);
  }

  lemma ConsJoin(h: string, a: string, b: string)
    ensures h + (a + " " + b) == (h + a) + " " + b
  {
  }

  lemma CollapseWsAtWs(s: string)
    requires |s| > 0 && IsWs(s[0])
    ensures CollapseWs(s) == " " + CollapseWs(TrimStart(s[1..]))
  {
  }

  lemma CollapseWsAtChar(s: string)
    requires |s| > 0 && !IsWs(s[0])
    ensures CollapseWs(s) == [s[0]] + CollapseWs(s[1..])
  {
  }

  /** A string that is already collapsed comes back unchanged. */
  lemma {:induction false} CollapsedIsFixed(s: string)
    requires Collapsed(s)
    ensures CollapseWs(s) == s
    decreases |s|
  {
    if |s| > 0 {
      TailCollapsed(s);
      CollapsedIsFixed(s[1..]);
      if IsWs(s[0]) {
        assert SingleSpaceAt(s, 0);
        assert s[0] == ' ';
        assert |s| == 1 || s[1..][0] == s[1];
        TrimStartOfUnspaced(s[1..]);
        assert CollapseWs(s) == " " + CollapseWs(TrimStart(s[1..]));
        assert CollapseWs(s) == " " + s[1..];
      } else {
        assert CollapseWs(s) == [s[0]] + s[1..];
      }
      assert s == [s[0]] + s[1..];
    }
  }
  /** `TrimStart` leaves a string that does not start with whitespace alone. */
  lemma TrimStartOfUnspaced(t: string)
    requires |t| == 0 || !IsWs(t[0])
    ensures TrimStart(t) == t
  {
  }

  lemma TailCollapsed(s: string)
    requires |s| > 0 && Collapsed(s)
    ensures Collapsed(s[1..])
  {
    var t := s[1..];
    forall i | 0 <= i < |t|
      ensures SingleSpaceAt(t, i)
    {
      assert SingleSpaceAt(s, i + 1);
      assert t[i] == s[i + 1];
      if i + 1 < |t| { assert t[i + 1] == s[i + 2]; }
    }
  }

  lemma CollapseWsIdempotent(s: string)
    ensures CollapseWs(CollapseWs(s)) == CollapseWs(s)
  {
    CollapsedIsFixed(CollapseWs(s));
  }

  /** A prefix of a collapsed string is collapsed. */
  lemma PrefixOfCollapsed(s: string, n: nat)
    requires Collapsed(s)
    ensures Collapsed(Take(s, n))
  {
    var r := Take(s, n);
    forall i | 0 <= i < |r|
      ensures SingleSpaceAt(r, i)
    {
      assert SingleSpaceAt(s, i);
      assert r[i] == s[i];
      if i + 1 < |r| { assert r[i + 1] == s[i + 1]; }
    }
  }

  // ---------------------------------------------------------------------------
  // The payload

  /** What the handler reads from the tab; `None` is a missing `body` or `meta` element. */
  datatype Tab = Tab(href: string, title: string, bodyText: Option<string>, metaDescription: Option<string>)

  /** The chosen CV file; `text` is `None` when `file.text()` rejects. */
  datatype CvFile = CvFile(name: string, text: Option<string>)

  /** The JSON object handed to the relay, `null` fields as `None`. */
  datatype ClipPayload = ClipPayload(
    url: string,
    content: string,
    cvText: string,
    cvVersionName: Option<string>,
    cvFilePath: Option<string>)

  /**
   * A click either stops with a status message, or stores `baseUrl`, shows
   * the statuses in order and sends the payload to `baseUrl/api/import`.
   */
  datatype Click =
    | Refused(status: string)
    | Send(baseUrl: string, payload: ClipPayload, statuses: seq<string>)

  /** `visibleText`: the collapsed page text, cut to the limit. */
  function VisibleText(tab: Tab): (r: string)
    ensures |r| <= VisibleLimit
    ensures Collapsed(r)
    ensures IsPrefix(r, CollapseWs(OrElseOpt(tab.bodyText, "")))
    ensures |CollapseWs(OrElseOpt(tab.bodyText, ""))| <= VisibleLimit ==> r == CollapseWs(OrElseOpt(tab.bodyText, ""))
    ensures |CollapseWs(OrElseOpt(tab.bodyText, ""))| > VisibleLimit ==> |r| == VisibleLimit
  {
    var all := CollapseWs(OrElseOpt(tab.bodyText, ""));
    PrefixOfCollapsed(all, VisibleLimit);
    Take(all, VisibleLimit)
  }

  /** The `content` template: title line, summary line, a blank line, then the page text. */
  function Content(tab: Tab): (r: string)
    ensures IsPrefix("Job Title: " + OrElse(tab.title, UntitledRole) + "\n", r)
  {
    ContentTemplate(OrElse(tab.title, UntitledRole), OrElseOpt(tab.metaDescription, ""), VisibleText(tab));
    "Job Title: " + OrElse(tab.title, UntitledRole) + "\nSummary: " + OrElseOpt(tab.metaDescription, "")
    + "\n\n" + VisibleText(tab)
  }

  /** The content ends with the visible page text. */
  lemma ContentEndsWithPageText(tab: Tab)
    ensures |VisibleText(tab)| <= |Content(tab)|
    ensures Content(tab)[|Content(tab)| - |VisibleText(tab)|..] == VisibleText(tab)
  {
    ContentTemplate(OrElse(tab.title, UntitledRole), OrElseOpt(tab.metaDescription, ""), VisibleText(tab));
  }

  /** The template starts with its title line and ends with its page text. */
  lemma ContentTemplate(title: string, summary: string, text: string)
    ensures var c := "Job Title: " + title + "\nSummary: " + summary + "\n\n" + text;
      IsPrefix("Job Title: " + title + "\n", c) && |text| <= |c| && c[|c| - |text|..] == text
  {
    var head := "Job Title: " + title + "\n";
    var c := "Job Title: " + title + "\nSummary: " + summary + "\n\n" + text;
    assert c == head + ("Summary: " + summary + "\n\n" + text);
  }

  /**
   * Split at newlines, the content is its four template lines: the title,
   * the summary (empty without a meta description), a blank line and the
   * page text, whenever the title and the description hold no newline.
   */
  lemma ContentLines(tab: Tab)
    requires NoNewline(tab.title)
    requires tab.metaDescription.Some? ==> NoNewline(tab.metaDescription.value)
    ensures ImportRoute.SplitLines(Content(tab)) ==
      [ "Job Title: " + OrElse(tab.title, UntitledRole),
        "Summary: " + OrElseOpt(tab.metaDescription, ""),
        "",
        VisibleText(tab) ]
  {
    var v := VisibleText(tab);
    forall i | 0 <= i < |v| ensures v[i] != '\n' {
      assert SingleSpaceAt(v, i);
    }
    ContentTemplateLines(OrElse(tab.title, UntitledRole), OrElseOpt(tab.metaDescription, ""), v);
  }

  /** The template split at newlines, over plain strings. */
  lemma ContentTemplateLines(title: string, summary: string, text: string)
    requires NoNewline(title) && NoNewline(summary) && NoNewline(text)
    ensures ImportRoute.SplitLines("Job Title: " + title + "\nSummary: " + summary + "\n\n" + text) ==
      ["Job Title: " + title, "Summary: " + summary, "", text]
  {
    var t := "Job Title: " + title;
    var m := "Summary: " + summary;
    var r2 := "" + "\n" + text;
    var r1 := m + "\n" + r2;
    ImportRoute.PrefixedNoNewline("Job Title: ", title);
    ImportRoute.PrefixedNoNewline("Summary: ", summary);
    TemplateAsLines(title, summary, text);
    ImportRoute.SplitLineFree(text);
    ImportRoute.SplitAfterLine("", text);
    ImportRoute.SplitAfterLine(m, r2);
    ImportRoute.SplitAfterLine(t, r1);
  }

  /** The template is its lines joined by newlines. */
  lemma TemplateAsLines(title: string, summary: string, text: string)
    ensures "Job Title: " + title + "\nSummary: " + summary + "\n\n" + text ==
      ("Job Title: " + title) + "\n" + (("Summary: " + summary) + "\n" + ("" + "\n" + text))
  {
  }

  /** The payload before and after the optional file is read. */
  function BuildPayload(tab: Tab, file: Option<CvFile>): (p: ClipPayload)
    ensures p.url == tab.href && p.content == Content(tab)
    ensures file.None? ==> p.cvText == "" && p.cvVersionName.None? && p.cvFilePath.None?
    ensures file.Some? ==> p.cvVersionName == Some(file.value.name) && p.cvFilePath == Some(file.value.name)
    ensures file.Some? ==> p.cvText == file.value.text.GetOr("")
  {
    match file
    case None => ClipPayload(tab.href, Content(tab), "", None, None)
    case Some(f) => ClipPayload(tab.href, Content(tab), f.text.GetOr(""), Some(f.name), Some(f.name))
  }

  /** The click handler up to the hand-off to the relay. */
  function AddJob(baseUrlInput: string, tab: Tab, file: Option<CvFile>): (c: Click)
    ensures c.Refused? <==> BaseUrl(baseUrlInput) == ""
    ensures c.Refused? ==> c.status == NeedBaseUrl
    ensures c.Send? ==> c.baseUrl == BaseUrl(baseUrlInput) && c.payload == BuildPayload(tab, file)
    ensures c.Send? ==> |c.statuses| > 0 && c.statuses[|c.statuses| - 1] == Submitting
    ensures c.Send? ==> (CvReadFailed in c.statuses <==> file.Some? && file.value.text.None?)
  {
    var baseUrl := BaseUrl(baseUrlInput);
    if baseUrl == "" then Refused(NeedBaseUrl)
    else Send(baseUrl, BuildPayload(tab, file), SendStatuses(file))
  }

  /** The statuses shown on the way to sending: the read-failure notice when the file could not be read, then the submitting notice. */
  function SendStatuses(file: Option<CvFile>): (ss: seq<string>)
    ensures |ss| > 0 && ss[|ss| - 1] == Submitting
    ensures CvReadFailed in ss <==> file.Some? && file.value.text.None?
  {
    var warned := if file.Some? && file.value.text.None? then [CvReadFailed] else [];
    warned + [Submitting]
  }

  /** `JSON.stringify(payload)` as the route parses it back. */
  function PayloadJson(p: ClipPayload): (v: JsonValue)
    ensures Member(v, "url") == Some(JStr(p.url))
  {
    var name := if p.cvVersionName.Some? then JStr(p.cvVersionName.value) else JNull;
    var path := if p.cvFilePath.Some? then JStr(p.cvFilePath.value) else JNull;
    JObj(map["url" := JStr(p.url), "content" := JStr(p.content), "cvText" := JStr(p.cvText),
             "cvVersionName" := name, "cvFilePath" := path])
  }

  /** A tab without a title is clipped as "Untitled role". */
  lemma UntitledTabUsesPlaceholder(tab: Tab)
    requires tab.title == ""
    ensures IsPrefix("Job Title: Untitled role\n", Content(tab))
  {
  }

  /**
   * The route reads only the `url` of the clipped payload: the scraped
   * content, the CV text and the file name change nothing on the server,
   * which answers as if the extension had posted `{ url }` alone.
   */
  lemma ServerSeesOnlyTheUrl(p: ClipPayload, apiKey: Option<string>, o: ImportRoute.Oracle)
    ensures ImportRoute.Post(ImportRoute.Request(Some(PayloadJson(p))), apiKey, o)
         == ImportRoute.Post(ImportRoute.Request(Some(JObj(map["url" := JStr(p.url)]))), apiKey, o)
  {
    ImportRoute.RouteIgnoresAllButUrl(PayloadJson(p), JObj(map["url" := JStr(p.url)]), apiKey, o);
  }
}
