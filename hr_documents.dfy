/** The document center: the documents list, the search that derives the shown
    list from it, deletes, and the two display helpers for a document's
    category and size. */
module HrDocuments {
  import opened Wrappers
  import opened Strings
  import Lists

  datatype Document = Document(
    id: string, title: string, description: string, category: string,
    fileName: string, fileSize: nat, fileUrl: string, createdAt: string)

  /** Lines 39-41: title or category contains the search term, ignoring case. */
  predicate Matches(doc: Document, searchTerm: string)
  {
    ContainsIgnoringCase(doc.title, searchTerm) || ContainsIgnoringCase(doc.category, searchTerm)
  }

  /** The effect of lines 37-44. */
  function SearchDocuments(documents: seq<Document>, searchTerm: string): (r: seq<Document>)
    ensures |r| <= |documents|
    ensures forall i :: 0 <= i < |r| ==> Matches(r[i], searchTerm)
  {
    Lists.Filter(documents, (d: Document) => Matches(d, searchTerm))
  }

  /** The shown documents are exactly the matching ones, in list order; the
      empty search shows them all. */
  lemma SearchExactly(documents: seq<Document>, searchTerm: string, d: Document)
    ensures d in SearchDocuments(documents, searchTerm) <==> d in documents && Matches(d, searchTerm)
    ensures Lists.IsSubsequence(SearchDocuments(documents, searchTerm), documents)
    ensures SearchDocuments(documents, "") == documents
  {
    Lists.FilterMembership(documents, (x: Document) => Matches(x, searchTerm), d);
    Lists.FilterIsSubsequence(documents, (x: Document) => Matches(x, searchTerm));
    forall i | 0 <= i < |documents| ensures Matches(documents[i], "") {
      ContainsEmpty(documents[i].title);
    }
    Lists.FilterAll(documents, (x: Document) => Matches(x, ""));
  }

  function DocumentId(d: Document): string { d.id }

  /** Line 64: `documents.filter(doc => doc.id !== id)`. */
  function DocumentsWithout(documents: seq<Document>, id: string): seq<Document>
  {
    Lists.WithoutKey(documents, DocumentId, id)
  }

  /** A delete removes exactly the documents with that id and keeps the rest
      in order; since the shown list is recomputed, searching after the delete
      is deleting from the search, so the deleted document is not shown. */
  lemma DeletedDocumentNotShown(documents: seq<Document>, searchTerm: string, id: string, d: Document)
    ensures d in DocumentsWithout(documents, id) <==> d in documents && d.id != id
    ensures SearchDocuments(DocumentsWithout(documents, id), searchTerm) ==
      DocumentsWithout(SearchDocuments(documents, searchTerm), id)
    ensures d in SearchDocuments(DocumentsWithout(documents, id), searchTerm) ==> d.id != id
  {
    Lists.WithoutKeyExactly(documents, DocumentId, id, d);
    Lists.WithoutKeyFilterCommute(documents, DocumentId, id, (x: Document) => Matches(x, searchTerm));
    SearchExactly(DocumentsWithout(documents, id), searchTerm, d);
  }

  /** The page's state; the search effect keeps `filteredDocuments` derived
      from the other two. */
  class DocumentCenter {
    var documents: seq<Document>
    var filteredDocuments: seq<Document>
    var searchTerm: string
    var loading: bool

    ghost predicate Valid()
      reads this
    {
      filteredDocuments == SearchDocuments(documents, searchTerm)
    }

    constructor ()
      ensures Valid() && documents == [] && searchTerm == "" && loading
    {
      documents, filteredDocuments, searchTerm, loading := [], [], "", true;
    }

    /** The effect, run after every change of `searchTerm` or `documents`. */
    method Refilter()
      modifies this
      ensures Valid()
      ensures documents == old(documents) && searchTerm == old(searchTerm) && loading == old(loading)
    {
      filteredDocuments := SearchDocuments(documents, searchTerm);
    }

    method SetSearchTerm(term: string)
      modifies this
      ensures Valid() && searchTerm == term
      ensures documents == old(documents) && loading == old(loading)
    {
      searchTerm := term;
      Refilter();
    }

    /** `fetchDocuments` up to its `await`. */
    method BeginFetch()
      modifies this
      ensures loading
      ensures documents == old(documents) && filteredDocuments == old(filteredDocuments) && searchTerm == old(searchTerm)
    {
      loading := true;
    }

    /** `fetchDocuments` after the query: an error keeps the list; otherwise it
        becomes the rows, or empty when none came back. */
    method EndFetch(error: bool, rows: Option<seq<Document>>)
      modifies this
      ensures documents == (if error then old(documents) else if rows.Some? then rows.value else [])
      ensures Valid() && searchTerm == old(searchTerm) && !loading
    {
      if !error {
        documents := if rows.Some? then rows.value else [];
      }
      Refilter();
      loading := false;
    }

    /** `handleDelete`: `remote` is how the database delete turns out. */
    method Delete(id: string, remote: Outcome)
      modifies this
      ensures documents == (if remote.Success? then DocumentsWithout(old(documents), id) else old(documents))
      ensures Valid() && searchTerm == old(searchTerm) && loading == old(loading)
    {
      if remote.Success? {
        documents := DocumentsWithout(documents, id);
      }
      Refilter();
    }
  }

  /** Lines 79-85. */
  const CategoryColors: map<string, string> := map[
    "HR Forms" := "bg-blue-100 text-blue-700",
    "Policies" := "bg-purple-100 text-purple-700",
    "Templates" := "bg-green-100 text-green-700",
    "Guidelines" := "bg-orange-100 text-orange-700",
    "Other" := "bg-gray-100 text-gray-700"]

  /** `getCategoryColor`: the category's colour, or that of "Other". */
  function CategoryColor(category: string): (r: string)
    ensures r in CategoryColors.Values
  {
    if category in CategoryColors then CategoryColors[category] else CategoryColors["Other"]
  }

  /** Each of the five categories has its own colour, and every other text
      shares the grey of "Other". */
  lemma CategoryColorFallback(category: string)
    ensures category !in CategoryColors ==> CategoryColor(category) == "bg-gray-100 text-gray-700"
    ensures category in CategoryColors && category != "Other" ==> CategoryColor(category) != CategoryColor("Other")
    ensures forall a, b :: a in CategoryColors && b in CategoryColors && a != b ==> CategoryColor(a) != CategoryColor(b)
  {
  }

  const Kilo: nat := 1024

  function Pow(b: nat, e: nat): nat
  {
    if e == 0 then 1 else b * Pow(b, e - 1)
  }

  /** `Math.floor(Math.log(bytes) / Math.log(1024))` for a positive size, in
      exact arithmetic: the largest `i` with 1024^i <= bytes. */
  function UnitIndex(bytes: nat): (i: nat)
    requires bytes >= 1
    ensures Pow(Kilo, i) <= bytes < Pow(Kilo, i + 1)
    decreases bytes
  {
    if bytes < Kilo then 0
    else
      var rest := bytes / Kilo;
      var j := UnitIndex(rest);
      assert Pow(Kilo, j + 1) == Kilo * Pow(Kilo, j) <= Kilo * rest <= bytes;
      assert bytes < Kilo * (rest + 1) <= Kilo * Pow(Kilo, j + 1) == Pow(Kilo, j + 2);
      j + 1
  }

  const Sizes: seq<string> := ["Bytes", "KB", "MB"]

  /** Powers of 1024 grow with the exponent. */
  lemma {:induction false} KiloPowGrows(m: nat, n: nat)
    requires m <= n
    ensures Pow(Kilo, m) <= Pow(Kilo, n)
  {
    if m < n {
      KiloPowGrows(m, n - 1);
      assert Pow(Kilo, n) == Kilo * Pow(Kilo, n - 1);
    }
  }

  /** The unit as written, `sizes[i]`: undefined (none) past the last entry. */
  function UnitAsWritten(bytes: nat): Option<string>
    requires bytes >= 1
  {
    var i := UnitIndex(bytes);
    if i < |Sizes| then Some(Sizes[i]) else None
  }

  /** A size of a gibibyte or more has no unit as written: 5368709120 bytes
      (5 GiB) is shown as "5 undefined". */
  lemma GibibyteHasNoUnitAsWritten(bytes: nat)
    requires bytes >= Pow(Kilo, 3)
    ensures UnitAsWritten(bytes) == None
  {
    var i := UnitIndex(bytes);
    if i < 3 {
      KiloPowGrows(i + 1, 3);
    }
  }

  lemma FiveGibibytesAsWritten()
    ensures 5368709120 >= Pow(Kilo, 3)
    ensures UnitAsWritten(5368709120) == None
  {
    GibibyteHasNoUnitAsWritten(5368709120);
  }

  /** The unit as intended: the largest unit there is, for sizes past it. */
  function Unit(bytes: nat): string
    requires bytes >= 1
  {
    var i := UnitIndex(bytes);
    if i < |Sizes| then Sizes[i] else Sizes[|Sizes| - 1]
  }

  /** Every positive size has a unit; below a gibibyte it is the one the code
      as written picks, and the size is at least one and under 1024 of it. */
  lemma UnitAlwaysDefined(bytes: nat)
    requires bytes >= 1
    ensures Unit(bytes) in Sizes
    ensures bytes < Pow(Kilo, 3) ==> UnitAsWritten(bytes) == Some(Unit(bytes))
    ensures Unit(bytes) == "Bytes" <==> bytes < Kilo
  {
    var i := UnitIndex(bytes);
    if bytes < Pow(Kilo, 3) && i >= 3 {
      KiloPowGrows(3, i);
    }
    if i >= 1 {
      KiloPowGrows(1, i);
    }
  }

  /** The unit as written exists exactly below a gibibyte, and is then one of
      the table's. */
  lemma UnitAsWrittenCases(bytes: nat)
    requires bytes >= 1
    ensures UnitAsWritten(bytes).Some? <==> bytes < Pow(Kilo, 3)
    ensures UnitAsWritten(bytes).Some? ==> UnitAsWritten(bytes).value in Sizes
  {
    if bytes < Pow(Kilo, 3) {
      UnitAlwaysDefined(bytes);
    } else {
      GibibyteHasNoUnitAsWritten(bytes);
    }
  }

  /** `formatFileSize` as written: "0 Bytes" for an empty file, otherwise the
      rounded amount (rendered by the caller: the floating-point division and
      rounding are not modelled), a space and `sizes[i]`, which JavaScript
      renders as "undefined" past the end of the table. */
  function FormatFileSizeAsWritten(bytes: nat, amount: string): (r: string)
    ensures bytes == 0 ==> r == "0 Bytes"
    ensures 0 < bytes < Pow(Kilo, 3) ==>
      |r| > |amount| + 1 && r[..|amount| + 1] == amount + " " && r[|amount| + 1..] in Sizes
    ensures bytes >= Pow(Kilo, 3) ==> r == amount + " undefined"
  {
    if bytes == 0 then "0 Bytes"
    else
      var unit := UnitAsWritten(bytes);
      UnitAsWrittenCases(bytes);
      var r := amount + " " + (if unit.Some? then unit.value else "undefined");
      assert r[..|amount| + 1] == amount + " ";
      assert r[|amount| + 1..] == (if unit.Some? then unit.value else "undefined");
      r
  }

  /** `formatFileSize` as intended: "0 Bytes" for an empty file, otherwise the
      amount, a space and a unit of the table. */
  function FormatFileSize(bytes: nat, amount: string): (r: string)
    ensures bytes == 0 ==> r == "0 Bytes"
    ensures bytes > 0 ==> |r| > |amount| + 1 && r[..|amount|] == amount && r[|amount|] == ' ' && r[|amount| + 1..] in Sizes
  {
    if bytes == 0 then "0 Bytes"
    else
      UnitAlwaysDefined(bytes);
      var r := amount + " " + Unit(bytes);
      assert r[|amount| + 1..] == Unit(bytes);
      r
  }

  /** The two formatters differ only from a gibibyte up, where the code as
      written shows "undefined" and the corrected one "MB". */
  lemma FormattersAgreeBelowGibibyte(bytes: nat, amount: string)
    ensures bytes < Pow(Kilo, 3) ==> FormatFileSizeAsWritten(bytes, amount) == FormatFileSize(bytes, amount)
    ensures bytes >= Pow(Kilo, 3) ==> FormatFileSize(bytes, amount) == amount + " MB"
  {
    if bytes > 0 {
      UnitAlwaysDefined(bytes);
      if bytes >= Pow(Kilo, 3) {
        var i := UnitIndex(bytes);
        if i < 3 {
          KiloPowGrows(i + 1, 3);
        }
      }
    }
  }
}
