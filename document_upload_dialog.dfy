/** The HR document upload dialog: a form of title, description, category and
    file whose submit uploads the file into the "documents" bucket and then
    records the document in the `documents` table. */
module DocumentUploadDialog {
  import opened Wrappers
  import opened Strings
  import opened ObjectStorage

  const BucketName: string := "documents"

  /** The category the form starts with and returns to. */
  const DefaultCategory: string := "HR Forms"

  /** A row of the `documents` table as the dialog inserts it. */
  datatype DocumentRecord = DocumentRecord(
    title: string, description: string, category: string,
    fileName: string, fileSize: nat, fileType: string, fileUrl: string)

  /** The `documents` table. */
  class DocumentTable {
    var rows: seq<DocumentRecord>

    constructor ()
      ensures rows == []
    {
      rows := [];
    }

    /** `from("documents").insert(row)`: appended unless the insert fails. */
    method Insert(row: DocumentRecord, outcome: Outcome) returns (result: Outcome)
      modifies this
      ensures result == outcome
      ensures rows == if outcome.Success? then old(rows) + [row] else old(rows)
    {
      if outcome.Success? {
        rows := rows + [row];
      }
      result := outcome;
    }
  }

  /** `file.name.split(".").pop()`: the text after the last dot, all of the
      name when it has no dot. */
  function Extension(fileName: string): string
  {
    LastPiece(fileName, '.')
  }

  /** The extension is the part of the name after its last dot: a suffix of
      the name with no dot in it, which is the whole name or follows a dot. */
  lemma ExtensionAfterLastDot(fileName: string)
    ensures var ext := Extension(fileName);
      && |ext| <= |fileName| && fileName[|fileName| - |ext|..] == ext
      && '.' !in ext
      && (|ext| < |fileName| ==> fileName[|fileName| - |ext| - 1] == '.')
  {
    LastPieceIsSuffixAfterLastSeparator(fileName, '.');
  }

  /** A name without a dot is its own extension. */
  lemma NoDotWholeName(fileName: string)
    requires '.' !in fileName
    ensures Extension(fileName) == fileName
  {
    SplitWithoutSeparator(fileName, '.');
  }

  /** A name ending in a dot has the empty extension. */
  lemma TrailingDotEmpty(stem: string)
    ensures Extension(stem + ".") == ""
  {
    SplitEndingInSeparator(stem, '.');
  }

  /** Lines 37-39: `documents/${Date.now()}.${fileExt}`. */
  function ObjectPath(now: nat, fileName: string): (r: string)
    ensures StartsWith(r, "documents/")
  {
    "documents/" + Decimal(now) + "." + Extension(fileName)
  }

  /** The path is determined by the time and the extension and determines
      both: uploads at different milliseconds get different paths. */
  lemma ObjectPathDecodes(n1: nat, name1: string, n2: nat, name2: string)
    requires ObjectPath(n1, name1) == ObjectPath(n2, name2)
    ensures n1 == n2 && Extension(name1) == Extension(name2)
  {
    var d1, d2 := Decimal(n1), Decimal(n2);
    var x1, x2 := Extension(name1), Extension(name2);
    assert ObjectPath(n1, name1) == "documents/" + (d1 + ['.'] + x1);
    assert ObjectPath(n2, name2) == "documents/" + (d2 + ['.'] + x2);
    PrefixCancels("documents/", d1 + ['.'] + x1, d2 + ['.'] + x2);
    DecimalLacks(n1, '.');
    DecimalLacks(n2, '.');
    SeparatorSplitsUniquely(d1, x1, d2, x2, '.');
    DecimalInjective(n1, n2);
  }

  /** The row recorded for a file stored at `path`. */
  function RecordFor(title: string, description: string, category: string, file: FileBlob, url: string): DocumentRecord
  {
    DocumentRecord(title, description, category, file.name, file.size, file.mimeType, url)
  }

  /** The dialog's form state. */
  class Form {
    var title: string
    var description: string
    var category: string
    var file: Option<FileBlob>
    var loading: bool

    constructor ()
      ensures title == "" && description == "" && category == DefaultCategory && file.None? && !loading
    {
      title, description, category, file, loading := "", "", DefaultCategory, None, false;
    }

    /** `!file || !title`: submit does nothing. */
    predicate Incomplete()
      reads this
    {
      file.None? || title == ""
    }

    /** `handleSubmit`: upload the file, then insert its record; reset the
        form and report success only when both succeed. `uploadFault` and
        `insertOutcome` are how the two calls turn out, `base` is the project
        URL, `now` the time in milliseconds; `succeeded` is whether
        `onSuccess` is called. */
    method HandleSubmit(bucket: Bucket, table: DocumentTable, now: nat, base: string, uploadFault: Outcome, insertOutcome: Outcome)
      returns (succeeded: bool)
      modifies this, bucket, table
      ensures old(Incomplete()) ==>
        !succeeded && unchanged(this) && unchanged(bucket) && unchanged(table)
      ensures !old(Incomplete()) ==>
        var path := ObjectPath(now, old(file).value.name);
        var (objects, uploaded) := Stored(old(bucket.objects), path, old(file).value, false, uploadFault);
        var row := RecordFor(old(title), old(description), old(category), old(file).value, PublicUrl(base, BucketName, path));
        && bucket.objects == objects
        && table.rows == (if uploaded.Success? && insertOutcome.Success? then old(table.rows) + [row] else old(table.rows))
        && succeeded == (uploaded.Success? && insertOutcome.Success?)
        && (succeeded ==> title == "" && description == "" && category == DefaultCategory && file.None?)
        && (!succeeded ==> title == old(title) && description == old(description) && category == old(category) && file == old(file))
        && !loading
    {
      if file.None? || title == "" {
        return false;
      }
      loading := true;
      var f := file.value;
      var fileName := Decimal(now) + "." + Extension(f.name);
      var path := "documents/" + fileName;
      assert path == ObjectPath(now, f.name);
      var uploadError := bucket.Upload(path, f, false, uploadFault);
      succeeded := false;
      if uploadError.Success? {
        var url := PublicUrl(base, BucketName, path);
        var dbError := table.Insert(RecordFor(title, description, category, f, url), insertOutcome);
        if dbError.Success? {
          title, description, category, file := "", "", DefaultCategory, None;
          succeeded := true;
        }
      }
      loading := false;
    }
  }
}
