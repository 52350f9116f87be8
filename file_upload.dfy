/**
 * The upload endpoints (`FileUploadController.java`): the CSV import loop,
 * the image-upload naming, the content type chosen by file suffix and the
 * containment check of the direct file route. Reading the stream, copying
 * files and the random file names are left to parameters; the category and
 * article services are represented by what the loop hands them.
 */
module FileUpload {
  import opened Common

  // ---------------------------------------------------------------------
  // CSV import

  /** The article the loop hands to `createArticle` for one line: the
   *  category is the one created for the same line. `status` is `None`
   *  when the status text named no constant, which leaves the service's
   *  default in place. */
  datatype Draft = Draft(title: string, categoryName: string, status: Option<string>)
  {
    /** The placeholder content the loop sets, which is fixed by the
     *  title: the title can be read back from it. */
    function Content(): (text: string)
      ensures |text| == |title| + 29 && text[12..|text| - 17] == title
    {
      var text := "Content for " + title + " imported via CSV";
      assert text[12..|text| - 17] == title;
      text
    }
  }

  /** What one data line gives: an error and nothing created, or an article
   *  (with a category) and possibly an error about its status. */
  datatype LineOutcome = Rejected(error: LineError) | Imported(draft: Draft, warning: Option<LineError>)

  /** The four errors the loop body records, each with the number of the
   *  line it is about; `Message` gives the text that goes into the reply. */
  datatype LineError =
    | TooFewColumns(lineNumber: int, got: nat)
    | EmptyTitle(lineNumber: int)
    | NoCategory(lineNumber: int, categoryName: string)
    | BadStatus(lineNumber: int, status: string, valid: seq<string>)

  /** The reply of a CSV upload: 400 with an error, or 200 with the counts
   *  and the error list. */
  datatype CsvReply = CsvRefused(error: string) | CsvDone(successCount: nat, totalCount: nat, errors: seq<string>)

  const EMPTY_FILE := "Please select a file to upload"
  const NOT_CSV := "Only CSV files are allowed"

  /** `String.join(sep, parts)`. */
  function JoinWith(parts: seq<string>, sep: string): string
    decreases |parts|
  {
    if parts == [] then "" else if |parts| == 1 then parts[0] else parts[0] + sep + JoinWith(parts[1..], sep)
  }

  /** A field as the loop reads it: every '"' removed, then trimmed. */
  function CleanField(field: string): (r: string)
    ensures '"' !in r
  {
    var stripped := RemoveChar(field, '"');
    TrimIsSlice(stripped, JavaSpace);
    JavaTrim(stripped)
  }

  function LinePrefix(lineNumber: int): string
  {
    "Line " + IntToString(lineNumber) + ": "
  }

  /** The text of an error as the reply lists it; every one starts with
   *  the line it is about. */
  function Message(e: LineError): (text: string)
    ensures StartsWith(text, LinePrefix(e.lineNumber))
  {
    var prefix := LinePrefix(e.lineNumber);
    var rest := match e
      case TooFewColumns(_, got) => "Not enough columns. Expected at least 4, got " + IntToString(got)
      case EmptyTitle(_) => "Title cannot be empty"
      case NoCategory(_, name) => "Could not create category '" + name + "': Category name cannot be empty"
      case BadStatus(_, status, valid) => "Invalid status value '" + status + "'. Valid values are: " + JoinWith(valid, ", ");
    assert (prefix + rest)[..|prefix|] == prefix;
    prefix + rest
  }

  /** The texts of a list of errors, in order. */
  function Messages(es: seq<LineError>): (texts: seq<string>)
    ensures |texts| == |es|
  {
    if es == [] then [] else Messages(es[..|es| - 1]) + [Message(es[|es| - 1])]
  }

  /** Each error's text sits at the error's own position. */
  lemma {:induction false} MessagesAt(es: seq<LineError>, k: nat)
    requires k < |es|
    ensures Messages(es)[k] == Message(es[k])
  {
    if k < |es| - 1 {
      MessagesAt(es[..|es| - 1], k);
    }
  }

  /** One pass of the loop body for the line numbered `lineNumber`;
   *  `statuses` are the names of the status constants. */
  function ProcessLine(line: string, lineNumber: int, statuses: seq<string>): LineOutcome
  {
    var values := JavaSplit(line, ',');
    if |values| < 4 then Rejected(TooFewColumns(lineNumber, |values|))
    else
      var title := CleanField(values[1]);
      var status := CleanField(values[2]);
      var categoryName := CleanField(values[3]);
      if title == "" then Rejected(EmptyTitle(lineNumber))
      else if categoryName == "" then Rejected(NoCategory(lineNumber, categoryName))
      else
        var upper := Upper(status);
        if upper in statuses then Imported(Draft(title, categoryName, Some(upper)), None)
        else Imported(Draft(title, categoryName, None), Some(BadStatus(lineNumber, upper, statuses)))
  }

  /** The rules of the loop body: fewer than four pieces is an error
   *  naming the count; a line is imported exactly when it has a title and
   *  a category; the status is kept only when its upper-cased text names a
   *  constant, and otherwise the line also carries a warning. */
  lemma LineRules(line: string, lineNumber: int, statuses: seq<string>)
    ensures var o := ProcessLine(line, lineNumber, statuses); var values := JavaSplit(line, ',');
      && (|values| < 4 ==> o == Rejected(TooFewColumns(lineNumber, |values|)))
      && (|values| >= 4 && CleanField(values[1]) == "" ==> o == Rejected(EmptyTitle(lineNumber)))
      && (|values| >= 4 && CleanField(values[1]) != "" && CleanField(values[3]) == "" ==>
            o == Rejected(NoCategory(lineNumber, "")))
      && (o.Imported? <==> |values| >= 4 && CleanField(values[1]) != "" && CleanField(values[3]) != "")
      && (o.Imported? ==>
            && o.draft.title == CleanField(values[1])
            && o.draft.categoryName == CleanField(values[3])
            && (o.draft.status.Some? <==> Upper(CleanField(values[2])) in statuses)
            && (o.draft.status.Some? ==> o.draft.status.value == Upper(CleanField(values[2])))
            && (o.warning.Some? <==> o.draft.status.None?)
            && (o.warning.Some? ==> o.warning.value == BadStatus(lineNumber, Upper(CleanField(values[2])), statuses)))
  {
  }

  /** The errors one line adds to the list. */
  function LineErrors(o: LineOutcome): seq<LineError>
  {
    if o.Rejected? then [o.error] else if o.warning.Some? then [o.warning.value] else []
  }

  /** The articles one line hands over. */
  function LineImports(o: LineOutcome): seq<Draft>
  {
    if o.Imported? then [o.draft] else []
  }

  /** The loop body as a value: what `process` does with a line and its
   *  number. */
  function LineProcessor(statuses: seq<string>): (string, int) -> LineOutcome
  {
    (line, lineNumber) => ProcessLine(line, lineNumber, statuses)
  }

  /** The outcomes of the data lines in order under `process`: data line
   *  `k` is file line `k + 2`. */
  function OutcomesBy(data: seq<string>, process: (string, int) -> LineOutcome): (outs: seq<LineOutcome>)
    ensures |outs| == |data|
  {
    seq(|data|, k requires 0 <= k < |data| => process(data[k], k + 2))
  }

  /** The outcomes of the data lines of an upload. */
  function Outcomes(data: seq<string>, statuses: seq<string>): (outs: seq<LineOutcome>)
    ensures |outs| == |data|
  {
    OutcomesBy(data, LineProcessor(statuses))
  }

  /** The error list after the first `n` outcomes. */
  function ErrorsOf(outs: seq<LineOutcome>, n: nat): seq<LineError>
    requires n <= |outs|
  {
    if n == 0 then [] else ErrorsOf(outs, n - 1) + LineErrors(outs[n - 1])
  }

  /** The articles handed to `createArticle` for the first `n` outcomes. */
  function ImportedOf(outs: seq<LineOutcome>, n: nat): seq<Draft>
    requires n <= |outs|
  {
    if n == 0 then [] else ImportedOf(outs, n - 1) + LineImports(outs[n - 1])
  }

  /** Number of the first `n` lines that created nothing. */
  function RejectedOf(outs: seq<LineOutcome>, n: nat): nat
    requires n <= |outs|
  {
    if n == 0 then 0 else RejectedOf(outs, n - 1) + (if outs[n - 1].Rejected? then 1 else 0)
  }

  /** Number of the first `n` lines imported although their status text
   *  was not a constant. */
  function WarnedOf(outs: seq<LineOutcome>, n: nat): nat
    requires n <= |outs|
  {
    if n == 0 then 0
    else WarnedOf(outs, n - 1) + (if outs[n - 1].Imported? && outs[n - 1].warning.Some? then 1 else 0)
  }

  /** Every data line is either imported or rejected; the errors are the
   *  rejections plus the status warnings. */
  lemma {:induction false} ImportAccounting(outs: seq<LineOutcome>, n: nat)
    requires n <= |outs|
    ensures |ImportedOf(outs, n)| + RejectedOf(outs, n) == n
    ensures |ErrorsOf(outs, n)| == RejectedOf(outs, n) + WarnedOf(outs, n)
  {
    if n > 0 {
      ImportAccounting(outs, n - 1);
    }
  }

  /** The data lines of a file: everything after the header line. */
  function DataLines(lines: seq<string>): (data: seq<string>)
    ensures |data| == if lines == [] then 0 else |lines| - 1
  {
    if lines == [] then [] else lines[1..]
  }

  /** `totalCount` as the reply computes it. */
  function WrittenTotal(successCount: nat, errors: seq<LineError>): nat
  {
    successCount + |errors|
  }

  /** As written, `totalCount` counts a line with a bad status twice: once
   *  as a success and once as an error. */
  lemma WrittenTotalOvercounts(outs: seq<LineOutcome>)
    ensures WrittenTotal(|ImportedOf(outs, |outs|)|, ErrorsOf(outs, |outs|)) == |outs| + WarnedOf(outs, |outs|)
  {
    ImportAccounting(outs, |outs|);
  }

  /** A file of a header and one line whose fields are comma-free, with a
   *  title and a category but a status naming no constant (a line such as
   *  "0,T,X,C" when the constants are DRAFT and PUBLISHED): one article is
   *  imported, one error is listed, and the written total is 2 for a
   *  single data line. */
  lemma StatusTypoCountedTwice(header: string, fields: seq<string>, statuses: seq<string>)
    requires |fields| == 4 && fields[3] != ""
    requires forall k :: 0 <= k < 4 ==> ',' !in fields[k]
    requires CleanField(fields[1]) != "" && CleanField(fields[3]) != ""
    requires Upper(CleanField(fields[2])) !in statuses
    ensures var data := DataLines([header, Join(fields, ',')]);
      && |data| == 1
      && var outs := Outcomes(data, statuses);
      && |ImportedOf(outs, 1)| == 1
      && WrittenTotal(|ImportedOf(outs, 1)|, ErrorsOf(outs, 1)) == 2
  {
    var line := Join(fields, ',');
    var data := DataLines([header, line]);
    assert data == [line];
    CommaFreeFieldsRead(fields, 2, statuses);
    var outs := Outcomes(data, statuses);
    assert outs[0] == ProcessLine(line, 2, statuses);
  }

  /** Fields free of commas are read back where they were put: field 1 is
   *  the title, field 2 the status and field 3 the category, each cleaned;
   *  the fields after the fourth do not matter. */
  lemma CommaFreeFieldsRead(fields: seq<string>, lineNumber: int, statuses: seq<string>)
    requires |fields| >= 4 && fields[|fields| - 1] != ""
    requires forall k :: 0 <= k < |fields| ==> ',' !in fields[k]
    requires CleanField(fields[1]) != "" && CleanField(fields[3]) != ""
    ensures var o := ProcessLine(Join(fields, ','), lineNumber, statuses);
      && o.Imported?
      && o.draft.title == CleanField(fields[1])
      && o.draft.categoryName == CleanField(fields[3])
      && (o.draft.status.Some? <==> Upper(CleanField(fields[2])) in statuses)
      && (o.warning.Some? <==> o.draft.status.None?)
  {
    var line := Join(fields, ',');
    SplitJoin(fields, ',');
    LineRules(line, lineNumber, statuses);
    assert ',' in line by {
      assert line == fields[0] + [','] + Join(fields[1..], ',');
      assert line[|fields[0]|] == ',';
    }
  }

  /** The import loop's state: the counter of the last line read, the
   *  successes, the error list and the articles handed over. */
  class CsvImport {
    var lineNumber: int
    var successCount: nat
    var errors: seq<LineError>
    var imported: seq<Draft>

    constructor ()
      ensures lineNumber == 1 && successCount == 0 && errors == [] && imported == []
    {
      lineNumber, successCount, errors, imported := 1, 0, [], [];
    }

    /** What the loop body does with one line's outcome: a rejection adds
     *  its error; an import adds its warning, if any, hands the article
     *  over and counts a success. */
    method Record(o: LineOutcome)
      modifies this
      ensures lineNumber == old(lineNumber)
      ensures errors == old(errors) + LineErrors(o)
      ensures imported == old(imported) + LineImports(o)
      ensures successCount == old(successCount) + |LineImports(o)|
    {
      if o.Rejected? {
        errors := errors + [o.error];
      } else {
        if o.warning.Some? {
          errors := errors + [o.warning.value];
        }
        imported := imported + [o.draft];
        successCount := successCount + 1;
      }
    }

    /** The `while ((line = reader.readLine()) != null)` loop over the data
     *  lines, with `process` for the loop body's reading of one line (the
     *  upload passes `LineProcessor`). */
    method ProcessLines(data: seq<string>, process: (string, int) -> LineOutcome)
      requires lineNumber == 1 && successCount == 0 && errors == [] && imported == []
      modifies this
      ensures lineNumber == |data| + 1
      ensures errors == ErrorsOf(OutcomesBy(data, process), |data|)
      ensures imported == ImportedOf(OutcomesBy(data, process), |data|)
      ensures successCount == |imported|
    {
      ghost var outs := OutcomesBy(data, process);
      var i := 0;
      while i < |data|
        invariant 0 <= i <= |data|
        invariant lineNumber == i + 1
        invariant errors == ErrorsOf(outs, i)
        invariant imported == ImportedOf(outs, i)
        invariant successCount == |imported|
      {
        var line := data[i];
        lineNumber := lineNumber + 1;
        var o := process(line, lineNumber);
        Record(o);
        i := i + 1;
      }
    }
  }

  /** `uploadCsv`: an empty file or a name not ending in ".csv" is refused
   *  before anything is read; otherwise the header is skipped and every
   *  data line processed. `totalCount` is the number of data lines (see
   *  `WrittenTotalOvercounts` for the count as written). */
  method UploadCsv(isEmpty: bool, originalFilename: string, lines: seq<string>, statuses: seq<string>)
    returns (reply: CsvReply, imported: seq<Draft>)
    ensures isEmpty ==> reply == CsvRefused(EMPTY_FILE) && imported == []
    ensures !isEmpty && !EndsWith(originalFilename, ".csv") ==> reply == CsvRefused(NOT_CSV) && imported == []
    ensures !isEmpty && EndsWith(originalFilename, ".csv") ==>
      var data := DataLines(lines);
      && var outs := Outcomes(data, statuses);
      && imported == ImportedOf(outs, |data|)
      && reply == CsvDone(|imported|, |data|, Messages(ErrorsOf(outs, |data|)))
      && reply.successCount + RejectedOf(outs, |data|) == reply.totalCount
  {
    if isEmpty {
      return CsvRefused(EMPTY_FILE), [];
    }
    if !EndsWith(originalFilename, ".csv") {
      return CsvRefused(NOT_CSV), [];
    }
    var data := DataLines(lines);
    var run := new CsvImport();
    run.ProcessLines(data, LineProcessor(statuses));
    ImportAccounting(Outcomes(data, statuses), |data|);
    reply := CsvDone(run.successCount, run.lineNumber - 1, Messages(run.errors));
    imported := run.imported;
  }

  // ---------------------------------------------------------------------
  // Image upload and served content types

  const IMAGE_URL_PREFIX := "/api/upload/files/images/"

  /** Index of the last occurrence of `c` (`lastIndexOf`), if any. */
  function LastIndexOf(s: string, c: char): (i: Option<nat>)
    ensures i.None? <==> c !in s
    ensures i.Some? ==> i.value < |s| && s[i.value] == c && c !in s[i.value + 1..]
    decreases |s|
  {
    if s == [] then None
    else if s[|s| - 1] == c then Some(|s| - 1)
    else
      var r := LastIndexOf(s[..|s| - 1], c);
      assert forall x :: x in s[..|s| - 1] ==> x in s;
      if r.None? then None
      else
        assert s[r.value + 1..] == s[..|s| - 1][r.value + 1..] + [s[|s| - 1]];
        Some(r.value)
  }

  /** The extension kept for a stored image: the name's suffix from its
   *  last '.', or ".jpg" for a missing name or one without a '.'. */
  function FileExtension(originalFilename: Option<string>): (ext: string)
    ensures originalFilename.Some? && '.' in originalFilename.value ==>
      && |ext| >= 1 && ext[0] == '.' && '.' !in ext[1..]
      && EndsWith(originalFilename.value, ext)
    ensures originalFilename.None? || '.' !in originalFilename.value ==> ext == ".jpg"
  {
    if originalFilename.Some? && '.' in originalFilename.value then
      var name := originalFilename.value;
      var i := LastIndexOf(name, '.').value;
      assert name[i..][1..] == name[i + 1..];
      name[i..]
    else ".jpg"
  }

  datatype ImageReply = ImageRefused(error: string) | ImageStored(filename: string, url: string, contentType: string)

  /** `uploadImage`: an empty file or a content type not starting with
   *  "image/" is refused; otherwise the file is stored under the fresh
   *  name `uuid` + extension and served from the images route. */
  function UploadImage(isEmpty: bool, contentType: Option<string>, originalFilename: Option<string>, uuid: string)
    : (r: ImageReply)
    ensures isEmpty ==> r == ImageRefused(EMPTY_FILE)
    ensures !isEmpty && (contentType.None? || !StartsWith(contentType.value, "image/")) ==>
      r == ImageRefused("Only image files are allowed")
    ensures r.ImageStored? ==>
      && StartsWith(contentType.value, "image/") && r.contentType == contentType.value
      && r.filename == uuid + FileExtension(originalFilename)
      && r.url == IMAGE_URL_PREFIX + r.filename
  {
    if isEmpty then ImageRefused(EMPTY_FILE)
    else if contentType.None? || !StartsWith(contentType.value, "image/") then ImageRefused("Only image files are allowed")
    else
      var filename := uuid + FileExtension(originalFilename);
      ImageStored(filename, IMAGE_URL_PREFIX + filename, contentType.value)
  }

  /** The stored name of an upload keeps the original's extension. */
  lemma StoredNameKeepsExtension(base: string, ext: string, uuid: string)
    requires '.' !in ext
    ensures FileExtension(Some(base + "." + ext)) == "." + ext
    ensures UploadImage(false, Some("image/png"), Some(base + "." + ext), uuid).ImageStored?
  {
    var name := base + "." + ext;
    assert name[|base|] == '.';
    assert name[|base| + 1..] == ext;
    assert StartsWith("image/png", "image/");
  }

  /** A name ending in ".png" ends in neither ".jpg" nor ".jpeg". */
  lemma PngIsNotJpeg(filename: string)
    requires EndsWith(filename, ".png")
    ensures !EndsWith(filename, ".jpg") && !EndsWith(filename, ".jpeg")
  {
    var n := |filename|;
    assert filename[n - 3] == 'p';
    if n >= 5 {
      assert filename[n - 4] == '.';
    }
  }

  /** `determineContentType`: by suffix, first match wins. */
  function DetermineContentType(filename: string): (t: string)
    ensures EndsWith(filename, ".jpg") || EndsWith(filename, ".jpeg") ==> t == "image/jpeg"
    ensures t == "application/octet-stream" <==>
      !EndsWith(filename, ".jpg") && !EndsWith(filename, ".jpeg") && !EndsWith(filename, ".png")
      && !EndsWith(filename, ".gif") && !EndsWith(filename, ".pdf") && !EndsWith(filename, ".csv")
  {
    if EndsWith(filename, ".jpg") || EndsWith(filename, ".jpeg") then "image/jpeg"
    else if EndsWith(filename, ".png") then "image/png"
    else if EndsWith(filename, ".gif") then "image/gif"
    else if EndsWith(filename, ".pdf") then "application/pdf"
    else if EndsWith(filename, ".csv") then "text/csv"
    else "application/octet-stream"
  }

  // ---------------------------------------------------------------------
  // Direct file access: the containment check

  /** The name elements of a slash-separated path; repeated and trailing
   *  slashes add none. */
  function Segments(path: string): (segs: seq<string>)
    ensures forall k :: 0 <= k < |segs| ==> segs[k] != ""
  {
    var segs := Filter(Split(path, '/'), (p: string) => p != "");
    assert forall k :: 0 <= k < |segs| ==> segs[k] in segs;
    segs
  }

  /** `Path.normalize` of an absolute path: "." elements go, and ".."
   *  removes the element before it (at the root it is dropped). */
  function Normalize(segs: seq<string>): (r: seq<string>)
    ensures forall k :: 0 <= k < |r| ==> r[k] != "." && r[k] != ".."
    ensures |r| <= |segs|
    decreases |segs|
  {
    if segs == [] then []
    else
      var init := Normalize(segs[..|segs| - 1]);
      var last := segs[|segs| - 1];
      if last == "." then init
      else if last == ".." then (if init == [] then [] else init[..|init| - 1])
      else init + [last]
  }

  /** `Path.startsWith`: element-wise, not character-wise. */
  predicate PathStartsWith(p: seq<string>, base: seq<string>)
  {
    |base| <= |p| && p[..|base|] == base
  }

  /** The check of `directFileAccess`: `uploadDir` as an absolute path is
   *  `base`, `filePath` the text after "/direct-files/". An absolute
   *  `filePath` replaces the base when resolved. */
  predicate Contained(base: seq<string>, filePath: string)
  {
    var file := if StartsWith(filePath, "/") then Segments(filePath) else base + Segments(filePath);
    PathStartsWith(Normalize(file), Normalize(base))
  }

  /** Normalising past elements with no ".." keeps the normalised prefix. */
  lemma {:induction false} NormalizeExtends(base: seq<string>, rest: seq<string>)
    requires forall k :: 0 <= k < |rest| ==> rest[k] != ".."
    ensures PathStartsWith(Normalize(base + rest), Normalize(base))
    decreases |rest|
  {
    if rest == [] {
      assert base + rest == base;
    } else {
      var init := rest[..|rest| - 1];
      assert (base + rest)[..|base + rest| - 1] == base + init;
      NormalizeExtends(base, init);
    }
  }

  /** A relative path with no ".." element never leaves the upload
   *  directory. */
  lemma RelativeWithoutParentContained(base: seq<string>, filePath: string)
    requires !StartsWith(filePath, "/")
    requires forall k :: 0 <= k < |Segments(filePath)| ==> Segments(filePath)[k] != ".."
    ensures Contained(base, filePath)
  {
    NormalizeExtends(base, Segments(filePath));
  }

  /** The elements of "../name". */
  lemma ParentSegments(name: string)
    requires name != "" && '/' !in name
    ensures Segments("../" + name) == ["..", name]
  {
    var path := "../" + name;
    assert path == ".." + ['/'] + name;
    SplitFirst("..", '/', name);
    assert IndexOf(name, '/') == |name|;
    assert Split(path, '/') == ["..", name];
    var p := (x: string) => x != "";
    assert Filter(["..", name], p) == [".."] + Filter([name], p);
  }

  /** Climbing out of a one-element upload directory is refused. */
  lemma ParentOfBaseRefused(dir: string, name: string)
    requires dir != "" && dir != "." && dir != ".." && '/' !in dir
    requires name != "" && name != "." && name != ".." && '/' !in name && name != dir
    ensures !Contained([dir], "../" + name)
  {
    var path := "../" + name;
    ParentSegments(name);
    assert !StartsWith(path, "/") by { assert path[0] == '.'; }
    var file := [dir] + ["..", name];
    assert file == [dir, "..", name];
    assert [dir][..0] == [];
    assert Normalize([dir]) == [dir];
    assert [dir, ".."][..1] == [dir];
    assert Normalize([dir, ".."]) == [];
    assert [dir, "..", name][..2] == [dir, ".."];
    assert Normalize(file) == [name];
  }
}
