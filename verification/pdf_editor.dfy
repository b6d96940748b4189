/**
 * The existing-PDF editor page: the uploaded document's data and page list,
 * the field list and selection (no history here) and the page being shown,
 * with the previous/next buttons clamped to the document's page range.
 */
module PdfEditor {
  import opened FieldModel
  import opened FieldList
  import PdfService

  /** What a successful upload returns: the document and its `getPdfInfo` page list. */
  datatype UploadResponse = UploadResponse(pdfBase64: string, pages: seq<PdfService.PageInfo>)

  /** The body posted by `handleExport`. */
  datatype ExportRequest = ExportRequest(pdfBase64: string, fields: seq<Field>)

  /** The "previous page" button: `Math.max(1, currentPage - 1)`. */
  function PreviousPage(current: int): (p: int)
    ensures p >= 1
    ensures current > 1 ==> p == current - 1
    ensures current <= 1 ==> p == 1
  {
    if current - 1 >= 1 then current - 1 else 1
  }

  /** The "next page" button: `Math.min(pdfPages.length, currentPage + 1)`. */
  function NextPage(current: int, pageCount: int): (p: int)
    ensures p <= pageCount
    ensures current < pageCount ==> p == current + 1
    ensures current >= pageCount ==> p == pageCount
  {
    if current + 1 <= pageCount then current + 1 else pageCount
  }

  /** Both buttons keep a page that is in `[1, pageCount]` in that range. */
  lemma NavigationStaysInRange(current: int, pageCount: int)
    requires 1 <= current <= pageCount
    ensures 1 <= PreviousPage(current) <= pageCount
    ensures 1 <= NextPage(current, pageCount) <= pageCount
  {
  }

  /** `k` clicks on "next" from an in-range page. */
  function NextClicks(current: int, pageCount: int, k: nat): int
    decreases k
  {
    if k == 0 then current else NextClicks(NextPage(current, pageCount), pageCount, k - 1)
  }

  /** Clicking "next" `k` times advances `k` pages but stops at the last one. */
  lemma {:induction false} NextClicksStopAtLast(current: int, pageCount: int, k: nat)
    requires 1 <= current <= pageCount
    ensures NextClicks(current, pageCount, k) == if current + k <= pageCount then current + k else pageCount
    decreases k
  {
    if k > 0 {
      NextClicksStopAtLast(NextPage(current, pageCount), pageCount, k - 1);
    }
  }

  /** `pdfPages.find(p => p.pageNumber === n)`: the first page record numbered `n`. */
  function FindPage(pages: seq<PdfService.PageInfo>, n: int): (r: Option<PdfService.PageInfo>)
    ensures r.None? <==> forall i :: 0 <= i < |pages| ==> pages[i].pageNumber != n
    ensures r.Some? ==> exists i :: 0 <= i < |pages| && pages[i] == r.value && r.value.pageNumber == n &&
                                    forall j :: 0 <= j < i ==> pages[j].pageNumber != n
  {
    if pages == [] then None
    else if pages[0].pageNumber == n then Some(pages[0])
    else
      var r := FindPage(pages[1..], n);
      assert r.Some? ==> exists i :: 1 <= i < |pages| && pages[i] == r.value && r.value.pageNumber == n &&
                                    forall j :: 1 <= j < i ==> pages[j].pageNumber != n;
      r
  }

  /**
   * On the page list `getPdfInfo` reports, the current page's record is the
   * one at index `currentPage - 1`; a page number out of range has none.
   */
  lemma CurrentPageInfoOfUpload(sizes: seq<PageSize>, n: int)
    ensures var info := PdfService.GetPdfInfo(sizes);
            (1 <= n <= |sizes| ==> FindPage(info.pages, n) == Some(info.pages[n - 1])) &&
            (n < 1 || n > |sizes| ==> FindPage(info.pages, n).None?)
  {
    var info := PdfService.GetPdfInfo(sizes);
    if 1 <= n <= |sizes| {
      assert info.pages[n - 1].pageNumber == n;
    }
  }

  class PdfEditorPage {
    var pdfData: Option<string>
    var pdfPages: seq<PdfService.PageInfo>
    var fields: seq<Field>
    var selectedFieldId: Option<string>
    var currentPage: int

    constructor()
      ensures pdfData == None && pdfPages == [] && fields == [] && selectedFieldId == None && currentPage == 1
    {
      pdfData := None;
      pdfPages := [];
      fields := [];
      selectedFieldId := None;
      currentPage := 1;
    }

    /**
     * `handleFileUpload`. `response` is None when no file was chosen or the
     * upload failed (the page then only alerts); a successful upload shows the
     * new document from its first page with no fields and nothing selected.
     */
    method HandleFileUpload(response: Option<UploadResponse>)
      modifies this
      ensures response.None? ==> unchanged(this)
      ensures response.Some? ==>
                pdfData == Some(response.value.pdfBase64) && pdfPages == response.value.pages &&
                currentPage == 1 && fields == [] && selectedFieldId == None
    {
      if response.None? {
        return;
      }
      pdfData := Some(response.value.pdfBase64);
      pdfPages := response.value.pages;
      currentPage := 1;
      fields := [];
      selectedFieldId := None;
    }

    method HandleFieldAdd(field: Field)
      modifies this
      ensures fields == old(fields) + [field] && selectedFieldId == Some(field.id)
      ensures pdfData == old(pdfData) && pdfPages == old(pdfPages) && currentPage == old(currentPage)
    {
      fields := fields + [field];
      selectedFieldId := Some(field.id);
    }

    /** A null or empty id only deselects; otherwise the fields with the id are replaced. No history is kept. */
    method HandleFieldUpdate(id: Option<string>, updatedField: Option<Field>)
      requires !IsNullId(id) ==> updatedField.Some?
      modifies this
      ensures fields == ApplyUpdate(old(fields), id, updatedField)
      ensures IsNullId(id) ==> selectedFieldId == None
      ensures !IsNullId(id) ==> selectedFieldId == old(selectedFieldId)
      ensures pdfData == old(pdfData) && pdfPages == old(pdfPages) && currentPage == old(currentPage)
    {
      if IsNullId(id) {
        selectedFieldId := None;
        return;
      }
      fields := ReplaceById(fields, id.value, updatedField.value);
    }

    method HandleFieldDelete(id: string)
      modifies this
      ensures fields == RemoveById(old(fields), id) && selectedFieldId == None
      ensures pdfData == old(pdfData) && pdfPages == old(pdfPages) && currentPage == old(currentPage)
    {
      fields := RemoveById(fields, id);
      selectedFieldId := None;
    }

    /**
     * The "New PDF" button, `confirmed` being the user's answer: the document,
     * its fields and its pages are dropped; the selection and the page number stay.
     */
    method HandleNewPdf(confirmed: bool)
      modifies this
      ensures !confirmed ==> unchanged(this)
      ensures confirmed ==> pdfData == None && fields == [] && pdfPages == [] &&
                            selectedFieldId == old(selectedFieldId) && currentPage == old(currentPage)
    {
      if confirmed {
        pdfData := None;
        fields := [];
        pdfPages := [];
      }
    }

    /** The buttons exist only while the document has more than one page. */
    method HandlePreviousPage()
      requires |pdfPages| > 1
      modifies this
      ensures currentPage == PreviousPage(old(currentPage))
      ensures pdfData == old(pdfData) && pdfPages == old(pdfPages) &&
              fields == old(fields) && selectedFieldId == old(selectedFieldId)
    {
      currentPage := if 1 >= currentPage - 1 then 1 else currentPage - 1;
    }

    method HandleNextPage()
      requires |pdfPages| > 1
      modifies this
      ensures currentPage == NextPage(old(currentPage), |pdfPages|)
      ensures pdfData == old(pdfData) && pdfPages == old(pdfPages) &&
              fields == old(fields) && selectedFieldId == old(selectedFieldId)
    {
      currentPage := if |pdfPages| <= currentPage + 1 then |pdfPages| else currentPage + 1;
    }

    /** The guard of `handleExport`: nothing is posted without a document or without fields. */
    method HandleExport() returns (request: Option<ExportRequest>)
      ensures request.None? <==> pdfData.None? || pdfData.value == "" || fields == []
      ensures request.Some? ==> request.value.pdfBase64 == pdfData.value && request.value.fields == fields
    {
      if pdfData.None? || pdfData.value == "" || |fields| == 0 {
        return None;
      }
      return Some(ExportRequest(pdfData.value, fields));
    }

    /** `currentPageInfo`: the record of the page being shown, if the list has one. */
    function CurrentPageInfo(): (r: Option<PdfService.PageInfo>)
      reads this
      ensures r.Some? ==> r.value in pdfPages && r.value.pageNumber == currentPage
      ensures r.None? <==> forall i :: 0 <= i < |pdfPages| ==> pdfPages[i].pageNumber != currentPage
    {
      FindPage(pdfPages, currentPage)
    }
  }
}
