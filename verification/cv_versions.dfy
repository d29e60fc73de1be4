/**
 * The CV-version list of components/files/my-files-manager.tsx: adding a
 * version (with an optional uploaded file), choosing the default, removing
 * a version, attaching a file later, and the newest-first order the table
 * shows. The list lives in local storage; saving it is not modelled.
 */
module CvVersions {
  import opened Outcomes
  import opened Strings

  /** A CV version; `createdAt` is the creation time in milliseconds. */
  datatype CvVersion = CvVersion(
    id: string,
    name: string,
    summary: string,
    skills: string,
    filePath: Option<string>,
    isDefault: bool,
    createdAt: int)

  /** The three text fields of the "Create a new CV version" form. */
  datatype Form = Form(name: string, summary: string, skills: string)

  /** A file chosen in the browser: only its name matters here. */
  datatype LocalFile = LocalFile(name: string)

  const UploadedCv := "Uploaded CV"

  // ---------------------------------------------------------------------------
  // Well-formed lists

  predicate UniqueIds(rows: seq<CvVersion>) {
    forall i, j | 0 <= i < j < |rows| :: rows[i].id != rows[j].id
  }

  /** A non-empty list has a default, and every default row is that one row. */
  ghost predicate OneDefault(rows: seq<CvVersion>) {
    |rows| > 0 ==>
      exists d :: d in rows && d.isDefault && forall r | r in rows && r.isDefault :: r.id == d.id
  }

  ghost predicate Wellformed(rows: seq<CvVersion>) {
    UniqueIds(rows) && OneDefault(rows)
  }

  /** In a well-formed list exactly one position holds a default row. */
  lemma OneDefaultPosition(rows: seq<CvVersion>, i: int, j: int)
    requires Wellformed(rows)
    requires 0 <= i < |rows| && 0 <= j < |rows| && rows[i].isDefault && rows[j].isDefault
    ensures i == j
  {
    var d :| d in rows && d.isDefault && forall r | r in rows && r.isDefault :: r.id == d.id;
    assert rows[i].id == d.id == rows[j].id;
  }

  // ---------------------------------------------------------------------------
  // File names

  /** `s` has an extension starting at the dot at `i`: the last dot, followed by at least one character. */
  ghost predicate ExtensionAt(s: string, i: int) {
    0 <= i < |s| - 1 && s[i] == '.' && forall k | i < k < |s| :: s[k] != '.'
  }

  /** The index of the last dot in `s`, if any. */
  function LastDot(s: string): (r: Option<nat>)
    ensures r.Some? ==> r.value < |s| && s[r.value] == '.' && forall k | r.value < k < |s| :: s[k] != '.'
    ensures r.None? ==> forall k | 0 <= k < |s| :: s[k] != '.'
  {
    if |s| == 0 then None
    else if s[|s| - 1] == '.' then Some(|s| - 1)
    else
      var r := LastDot(s[..|s| - 1]);
      assert forall k | 0 <= k < |s| - 1 :: s[..|s| - 1][k] == s[k];
      r
  }

  /** `name.replace(/\.[^.]+$/, "")`: drop the last dot and what follows, when something follows. */
  function StripExtension(s: string): (r: string)
    ensures IsPrefix(r, s)
    ensures r == s || ExtensionAt(s, |r|)
  {
    match LastDot(s)
    case Some(i) => if i < |s| - 1 then s[..i] else s
    case None => s
  }

  /** The regular expression matches exactly when an extension exists, and then it is removed. */
  lemma StripExtensionIff(s: string)
    ensures StripExtension(s) != s <==> exists i :: ExtensionAt(s, i)
    ensures forall i | ExtensionAt(s, i) :: StripExtension(s) == s[..i]
  {
    forall i | ExtensionAt(s, i) ensures StripExtension(s) == s[..i] {
      var d := LastDot(s);
      assert d.Some? by { assert s[i] == '.'; }
      assert d.value == i;
    }
  }

  /** The name used when the form's name is blank: the file name without extension, else "Uploaded CV". */
  function FallbackName(file: Option<LocalFile>): (n: string)
    ensures n != ""
    ensures file.None? ==> n == UploadedCv
    ensures file.Some? && StripExtension(file.value.name) != "" ==> n == StripExtension(file.value.name)
    ensures file.Some? && StripExtension(file.value.name) == "" ==> n == UploadedCv
  {
    if file.None? then UploadedCv else OrElse(StripExtension(file.value.name), UploadedCv)
  }

  /** `${userId}/cv-versions/${rowId}/${Date.now()}-${file.name}`. */
  function UploadPath(userId: string, rowId: string, now: nat, fileName: string): (p: string)
    ensures IsPrefix(userId + "/cv-versions/" + rowId + "/", p)
  {
    var dir := userId + "/cv-versions/" + rowId + "/";
    assert (dir + (Decimal(now) + "-" + fileName))[..|dir|] == dir;
    dir + (Decimal(now) + "-" + fileName)
  }

  // ---------------------------------------------------------------------------
  // Adding a version

  /** The list after a save, the upload request made (its path), and the alert shown. */
  datatype SaveOutcome = SaveOutcome(rows: seq<CvVersion>, uploaded: Option<string>, alert: Option<string>)

  /**
   * A blank name without a file does nothing. A file is uploaded first; if
   * the upload fails its message is shown and nothing changes. Otherwise the
   * new version goes on top: trimmed fields, the fallback name when the name
   * is blank, the uploaded path, and default exactly when it is the first.
   */
  function AddVersion(
    rows: seq<CvVersion>, form: Form, file: Option<LocalFile>,
    userId: string, rowId: string, now: nat, uploadError: Option<string>): (out: SaveOutcome)
    ensures AllWs(form.name) && file.None? ==> out == SaveOutcome(rows, None, None)
    ensures file.Some? ==> out.uploaded == Some(UploadPath(userId, rowId, now, file.value.name))
    ensures file.None? ==> out.uploaded.None?
    ensures file.Some? && uploadError.Some? ==> out.rows == rows && out.alert == uploadError
    ensures !(AllWs(form.name) && file.None?) && !(file.Some? && uploadError.Some?) ==>
      && out.alert.None?
      && |out.rows| == |rows| + 1 && out.rows[1..] == rows
      && out.rows[0].id == rowId
      && out.rows[0].name == (if AllWs(form.name) then FallbackName(file) else Trim(form.name))
      && out.rows[0].name != ""
      && out.rows[0].summary == Trim(form.summary) && out.rows[0].skills == Trim(form.skills)
      && out.rows[0].filePath == out.uploaded
      && (out.rows[0].isDefault <==> |rows| == 0)
      && out.rows[0].createdAt == now
  {
    TrimEmptyIff(form.name);
    if Trim(form.name) == "" && file.None? then SaveOutcome(rows, None, None)
    else
      var path := if file.Some? then Some(UploadPath(userId, rowId, now, file.value.name)) else None;
      if file.Some? && uploadError.Some? then SaveOutcome(rows, path, uploadError)
      else
        var row := CvVersion(rowId, OrElse(Trim(form.name), FallbackName(file)),
                             Trim(form.summary), Trim(form.skills), path, |rows| == 0, now);
        SaveOutcome([row] + rows, path, None)
  }

  lemma PrependKeepsUniqueIds(rows: seq<CvVersion>, x: CvVersion)
    requires UniqueIds(rows)
    requires forall i | 0 <= i < |rows| :: rows[i].id != x.id
    ensures UniqueIds([x] + rows)
  {
    var r := [x] + rows;
    forall i, j | 0 <= i < j < |r| ensures r[i].id != r[j].id {
      assert r[j] == rows[j - 1];
      if i > 0 { assert r[i] == rows[i - 1]; }
    }
  }

  lemma PrependKeepsOneDefault(rows: seq<CvVersion>, x: CvVersion)
    requires OneDefault(rows)
    requires x.isDefault <==> |rows| == 0
    ensures OneDefault([x] + rows)
  {
    var r := [x] + rows;
    if |rows| == 0 {
      assert r == [x];
      forall y | y in r && y.isDefault ensures y.id == x.id {
        assert y == x;
      }
      assert x in r && x.isDefault;
    } else {
      var d :| d in rows && d.isDefault && forall y | y in rows && y.isDefault :: y.id == d.id;
      assert d in r;
      forall y | y in r && y.isDefault ensures y.id == d.id {
        assert y in rows;
      }
    }
  }

  /** A new first row with a fresh id, default exactly when the list was empty, keeps the list well formed. */
  lemma PrependKeepsWellformed(rows: seq<CvVersion>, x: CvVersion)
    requires Wellformed(rows)
    requires forall i | 0 <= i < |rows| :: rows[i].id != x.id
    requires x.isDefault <==> |rows| == 0
    ensures Wellformed([x] + rows)
  {
    PrependKeepsUniqueIds(rows, x);
    PrependKeepsOneDefault(rows, x);
  }

  /** Adding a version with a fresh id keeps the list well formed. */
  lemma AddVersionKeepsWellformed(
    rows: seq<CvVersion>, form: Form, file: Option<LocalFile>,
    userId: string, rowId: string, now: nat, uploadError: Option<string>)
    requires Wellformed(rows)
    requires forall i | 0 <= i < |rows| :: rows[i].id != rowId
    ensures Wellformed(AddVersion(rows, form, file, userId, rowId, now, uploadError).rows)
  {
    var out := AddVersion(rows, form, file, userId, rowId, now, uploadError);
    if !(AllWs(form.name) && file.None?) && !(file.Some? && uploadError.Some?) {
      assert out.rows == [out.rows[0]] + rows;
      PrependKeepsWellformed(rows, out.rows[0]);
    }
  }

  // ---------------------------------------------------------------------------
  // Default, removal and attaching a file

  /** "Set default": the rows with that id become default, every other row stops being one. */
  function SetDefault(rows: seq<CvVersion>, id: string): (r: seq<CvVersion>)
    ensures |r| == |rows|
    ensures forall i | 0 <= i < |rows| :: r[i] == rows[i].(isDefault := rows[i].id == id)
  {
    seq(|rows|, i requires 0 <= i < |rows| => rows[i].(isDefault := rows[i].id == id))
  }

  /** Choosing a row of the list as default keeps the list well formed and makes it the default. */
  lemma SetDefaultKeepsWellformed(rows: seq<CvVersion>, k: int)
    requires UniqueIds(rows) && 0 <= k < |rows|
    ensures var r := SetDefault(rows, rows[k].id);
      Wellformed(r) && r[k].isDefault && forall i | 0 <= i < |r| && i != k :: !r[i].isDefault
  {
    var r := SetDefault(rows, rows[k].id);
    assert r[k] in r;
    forall x | x in r && x.isDefault ensures x.id == r[k].id {
      var i :| 0 <= i < |r| && r[i] == x;
    }
  }

  /** Setting a default with an id the list does not hold leaves no default at all. */
  lemma SetDefaultUnknownIdClearsDefault(rows: seq<CvVersion>, id: string)
    requires forall i | 0 <= i < |rows| :: rows[i].id != id
    ensures forall i | 0 <= i < |rows| :: !SetDefault(rows, id)[i].isDefault
  {
  }

  /** `rows.filter((row) => row.id !== id)`. */
  function WithoutId(rows: seq<CvVersion>, id: string): (r: seq<CvVersion>)
    ensures forall x :: x in r <==> x in rows && x.id != id
    ensures UniqueIds(rows) ==> UniqueIds(r)
    ensures |r| <= |rows|
  {
    if |rows| == 0 then []
    else
      var rest := WithoutId(rows[1..], id);
      assert forall x :: x in rows <==> x == rows[0] || x in rows[1..];
      if rows[0].id == id then rest
      else
        assert UniqueIds(rows) ==> forall x | x in rest :: x.id != rows[0].id by {
          if UniqueIds(rows) {
            forall x | x in rest ensures x.id != rows[0].id {
              var j :| 0 <= j < |rows[1..]| && rows[1..][j] == x;
              assert rows[j + 1] == x;
            }
          }
        }
        [rows[0]] + rest
  }

  /** `WithoutId` is a filter: it distributes over concatenation, so the kept rows stay in their order. */
  lemma {:induction false} WithoutIdAppend(a: seq<CvVersion>, b: seq<CvVersion>, id: string)
    ensures WithoutId(a + b, id) == WithoutId(a, id) + WithoutId(b, id)
  {
    if |a| == 0 {
      assert a + b == b;
    } else {
      var x, t := a[0], a[1..];
      var h := if x.id == id then [] else [x];
      calc {
        WithoutId(a + b, id);
        { assert a + b == [x] + (t + b); }
        WithoutId([x] + (t + b), id);
        { WithoutIdCons(x, t + b, id); }
        h + WithoutId(t + b, id);
        { WithoutIdAppend(t, b, id); }
        h + (WithoutId(t, id) + WithoutId(b, id));
        { assert a == [x] + t; WithoutIdCons(x, t, id); }
        WithoutId(a, id) + WithoutId(b, id);
      }
    }
  }

  /** One row is kept exactly when its id differs. */
  lemma WithoutIdCons(x: CvVersion, rest: seq<CvVersion>, id: string)
    ensures WithoutId([x] + rest, id) == (if x.id == id then [] else [x]) + WithoutId(rest, id)
  {
    assert ([x] + rest)[1..] == rest;
  }

  /** "Delete": the rows with that id go; if no default is left, the first remaining row becomes it. */
  function RemoveRow(rows: seq<CvVersion>, id: string): (r: seq<CvVersion>)
    ensures |r| == |WithoutId(rows, id)|
    ensures forall i | 0 <= i < |r| :: r[i].id != id
    ensures forall i | 0 <= i < |r| :: r[i].(isDefault := WithoutId(rows, id)[i].isDefault) == WithoutId(rows, id)[i]
    ensures var next := WithoutId(rows, id);
      |next| > 0 && (forall i | 0 <= i < |next| :: !next[i].isDefault) ==>
        |r| > 0 && r[0].isDefault && r[1..] == next[1..]
    ensures var next := WithoutId(rows, id);
      (|next| == 0 || exists i | 0 <= i < |next| :: next[i].isDefault) ==> r == next
  {
    var next := WithoutId(rows, id);
    assert forall i | 0 <= i < |next| :: next[i] in next;
    if |next| > 0 && forall i | 0 <= i < |next| :: !next[i].isDefault then
      next[0 := next[0].(isDefault := true)]
    else next
  }

  /** Removing a row keeps the list well formed: a non-empty list keeps exactly one default. */
  lemma RemoveRowKeepsWellformed(rows: seq<CvVersion>, id: string)
    requires Wellformed(rows)
    ensures Wellformed(RemoveRow(rows, id))
  {
    var next := WithoutId(rows, id);
    var r := RemoveRow(rows, id);
    assert UniqueIds(r) by {
      forall i, j | 0 <= i < j < |r| ensures r[i].id != r[j].id {
        assert next[i] in next && next[j] in next;
        assert r[i].id == next[i].id && r[j].id == next[j].id;
      }
    }
    if |next| > 0 {
      if forall i | 0 <= i < |next| :: !next[i].isDefault {
        assert r[0] in r;
        forall x | x in r && x.isDefault ensures x.id == r[0].id {
          var i :| 0 <= i < |r| && r[i] == x;
          assert i == 0;
        }
      } else {
        var k :| 0 <= k < |next| && next[k].isDefault;
        assert r == next;
        assert next[k] in rows;
        forall x | x in r && x.isDefault ensures x.id == next[k].id {
          assert x in rows;
          var d :| d in rows && d.isDefault && forall y | y in rows && y.isDefault :: y.id == d.id;
        }
        assert next[k] in r;
      }
    }
  }

  /**
   * The file picked on a row is uploaded under that row's folder, named
   * after the clock and the file; only after a successful upload does the
   * row's `filePath` change, and a failed one shows its message.
   */
  function AttachFile(
    rows: seq<CvVersion>, rowId: string, file: LocalFile,
    userId: string, now: nat, uploadError: Option<string>): (out: SaveOutcome)
    ensures out.uploaded == Some(UploadPath(userId, rowId, now, file.name))
    ensures |out.rows| == |rows|
    ensures uploadError.Some? ==> out.rows == rows && out.alert == uploadError
    ensures uploadError.None? ==> out.alert.None? && forall i | 0 <= i < |rows| ::
      out.rows[i] == (if rows[i].id == rowId then rows[i].(filePath := out.uploaded) else rows[i])
  {
    var path := UploadPath(userId, rowId, now, file.name);
    if uploadError.Some? then SaveOutcome(rows, Some(path), uploadError)
    else
      var next := seq(|rows|, i requires 0 <= i < |rows| => if rows[i].id == rowId then rows[i].(filePath := Some(path)) else rows[i]);
      SaveOutcome(next, Some(path), None)
  }

  lemma AttachFileKeepsWellformed(
    rows: seq<CvVersion>, rowId: string, file: LocalFile,
    userId: string, now: nat, uploadError: Option<string>)
    requires Wellformed(rows)
    ensures Wellformed(AttachFile(rows, rowId, file, userId, now, uploadError).rows)
  {
    var r := AttachFile(rows, rowId, file, userId, now, uploadError).rows;
    if uploadError.None? && |rows| > 0 {
      var d :| d in rows && d.isDefault && forall y | y in rows && y.isDefault :: y.id == d.id;
      var k :| 0 <= k < |rows| && rows[k] == d;
      assert r[k] in r && r[k].isDefault && r[k].id == d.id;
      forall x | x in r && x.isDefault ensures x.id == d.id {
        var i :| 0 <= i < |r| && r[i] == x;
        assert rows[i] in rows;
      }
    }
  }

  // ---------------------------------------------------------------------------
  // Newest first

  predicate NewestFirst(rows: seq<CvVersion>) {
    forall i, j | 0 <= i < j < |rows| :: rows[i].createdAt >= rows[j].createdAt
  }

  /** Insert `x` before the first row that is not newer than it. */
  function Insert(x: CvVersion, rows: seq<CvVersion>): (r: seq<CvVersion>)
    ensures |r| == |rows| + 1
    ensures multiset(r) == multiset(rows) + multiset{x}
    ensures forall y :: y in r <==> y == x || y in rows
  {
    if |rows| == 0 || x.createdAt >= rows[0].createdAt then
      [x] + rows
    else
      var rest := Insert(x, rows[1..]);
      assert rows == [rows[0]] + rows[1..];
      [rows[0]] + rest
  }

  /** Inserting into a newest-first list keeps it newest first. */
  lemma {:induction false} InsertKeepsNewestFirst(x: CvVersion, rows: seq<CvVersion>)
    requires NewestFirst(rows)
    ensures NewestFirst(Insert(x, rows))
  {
    if |rows| == 0 || x.createdAt >= rows[0].createdAt {
      forall k | 0 <= k < |rows| ensures x.createdAt >= rows[k].createdAt {
        if k > 0 { assert rows[0].createdAt >= rows[k].createdAt; }
      }
      ConsNewestFirst(x, rows);
    } else {
      var tail := rows[1..];
      TailNewestFirst(rows);
      InsertKeepsNewestFirst(x, tail);
      var rest := Insert(x, tail);
      forall k | 0 <= k < |rest| ensures rows[0].createdAt >= rest[k].createdAt {
        var y := rest[k];
        assert y in rest;
        if y != x {
          var j :| 0 <= j < |tail| && tail[j] == y;
          assert rows[j + 1] == y;
        }
      }
      ConsNewestFirst(rows[0], rest);
    }
  }

  /** A row no older than every row of a newest-first list can go in front of it. */
  lemma ConsNewestFirst(x: CvVersion, rows: seq<CvVersion>)
    requires NewestFirst(rows)
    requires forall k | 0 <= k < |rows| :: x.createdAt >= rows[k].createdAt
    ensures NewestFirst([x] + rows)
  {
    var r := [x] + rows;
    forall i, j | 0 <= i < j < |r| ensures r[i].createdAt >= r[j].createdAt {
      assert r[j] == rows[j - 1];
      if i > 0 { assert r[i] == rows[i - 1]; }
    }
  }

  lemma TailNewestFirst(rows: seq<CvVersion>)
    requires |rows| > 0 && NewestFirst(rows)
    ensures NewestFirst(rows[1..])
  {
    var tail := rows[1..];
    forall i, j | 0 <= i < j < |tail| ensures tail[i].createdAt >= tail[j].createdAt {
      assert tail[i] == rows[i + 1] && tail[j] == rows[j + 1];
    }
  }

  /**
   * `rows.sort((a, b) => b.createdAt - a.createdAt)`: the same rows, newest
   * first. Rows with equal times keep their order, as JavaScript's sort is
   * stable; inserting each row in front of its equals reproduces that.
   */
  function SortNewestFirst(rows: seq<CvVersion>): (r: seq<CvVersion>)
    ensures |r| == |rows|
    ensures multiset(r) == multiset(rows)
    ensures forall y :: y in r <==> y in rows
    ensures NewestFirst(r)
  {
    if |rows| == 0 then []
    else
      assert rows == [rows[0]] + rows[1..];
      var rest := SortNewestFirst(rows[1..]);
      InsertKeepsNewestFirst(rows[0], rest);
      Insert(rows[0], rest)
  }

  lemma {:induction false} InsertKeepsUniqueIds(x: CvVersion, rows: seq<CvVersion>)
    requires UniqueIds(rows) && forall y | y in rows :: y.id != x.id
    ensures UniqueIds(Insert(x, rows))
  {
    if |rows| > 0 && x.createdAt < rows[0].createdAt {
      assert forall y | y in rows[1..] :: y in rows;
      assert UniqueIds(rows[1..]) by {
        forall i, j | 0 <= i < j < |rows[1..]| ensures rows[1..][i].id != rows[1..][j].id {
          assert rows[1..][i] == rows[i + 1] && rows[1..][j] == rows[j + 1];
        }
      }
      InsertKeepsUniqueIds(x, rows[1..]);
      var rest := Insert(x, rows[1..]);
      forall y | y in rest ensures y.id != rows[0].id {
        if y != x {
          var j :| 0 <= j < |rows[1..]| && rows[1..][j] == y;
          assert rows[j + 1] == y;
        }
      }
      forall i, j | 0 <= i < j < |rest| + 1 ensures ([rows[0]] + rest)[i].id != ([rows[0]] + rest)[j].id {
        if i == 0 { assert rest[j - 1] in rest; }
      }
    }
  }

  lemma {:induction false} SortKeepsUniqueIds(rows: seq<CvVersion>)
    requires UniqueIds(rows)
    ensures UniqueIds(SortNewestFirst(rows))
  {
    if |rows| > 0 {
      assert UniqueIds(rows[1..]) by {
        forall i, j | 0 <= i < j < |rows[1..]| ensures rows[1..][i].id != rows[1..][j].id {
          assert rows[1..][i] == rows[i + 1] && rows[1..][j] == rows[j + 1];
        }
      }
      SortKeepsUniqueIds(rows[1..]);
      forall y | y in SortNewestFirst(rows[1..]) ensures y.id != rows[0].id {
        var j :| 0 <= j < |rows[1..]| && rows[1..][j] == y;
        assert rows[j + 1] == y;
      }
      InsertKeepsUniqueIds(rows[0], SortNewestFirst(rows[1..]));
    }
  }

  /** The order the table shows keeps the list well formed. */
  lemma SortKeepsWellformed(rows: seq<CvVersion>)
    requires Wellformed(rows)
    ensures Wellformed(SortNewestFirst(rows))
  {
    SortKeepsUniqueIds(rows);
    var r := SortNewestFirst(rows);
    if |rows| > 0 {
      var d :| d in rows && d.isDefault && forall y | y in rows && y.isDefault :: y.id == d.id;
      assert d in r;
    }
  }

  /** Sorting an already newest-first list changes nothing. */
  lemma {:induction false} SortOfNewestFirst(rows: seq<CvVersion>)
    requires NewestFirst(rows)
    ensures SortNewestFirst(rows) == rows
  {
    if |rows| > 0 {
      assert NewestFirst(rows[1..]) by {
        forall i, j | 0 <= i < j < |rows[1..]| ensures rows[1..][i].createdAt >= rows[1..][j].createdAt {
          assert rows[1..][i] == rows[i + 1] && rows[1..][j] == rows[j + 1];
        }
      }
      SortOfNewestFirst(rows[1..]);
      assert rows == [rows[0]] + rows[1..];
    }
  }

  /** A version added at a time no earlier than any other stays on top of the sorted list. */
  lemma NewestAddStaysOnTop(rows: seq<CvVersion>, x: CvVersion)
    requires NewestFirst(rows)
    requires forall i | 0 <= i < |rows| :: rows[i].createdAt <= x.createdAt
    ensures SortNewestFirst([x] + rows) == [x] + rows
  {
    assert NewestFirst([x] + rows) by {
      forall i, j | 0 <= i < j < |rows| + 1 ensures ([x] + rows)[i].createdAt >= ([x] + rows)[j].createdAt {
        if i > 0 { assert ([x] + rows)[i] == rows[i - 1]; }
      }
    }
    SortOfNewestFirst([x] + rows);
  }
}
