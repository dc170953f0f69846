/**
 * The backend's response envelopes: the plain success and error envelopes and the paginated envelope
 * whose metadata carries the page count and the has-previous/has-next flags.
 */
module Response {
  import opened Wrappers
  import opened Values

  datatype PaginationMeta = PaginationMeta(
    currentPage: int,
    pageSize: int,
    totalItems: int,
    totalPages: int,
    hasPrevious: bool,
    hasNext: bool)

  /**
   * `StandardResponse`, and with `meta` present `PaginatedResponseStructure`: the success flag, a
   * message, the payload, an error object, and the pagination metadata.
   */
  datatype Envelope<T> = Envelope(
    success: bool,
    message: string,
    data: Option<T>,
    error: Option<Record>,
    meta: Option<PaginationMeta>)

  /** `success_response`: a successful envelope around `data`, with no error. */
  function SuccessResponse<T>(data: Option<T>, message: string := "Operation successful"): (r: Envelope<T>)
    ensures r.success && r.error.None? && r.meta.None?
    ensures r.data == data && r.message == message
  {
    Envelope(true, message, data, None, None)
  }

  /** `error_response`: a failed envelope without data; the detail is attached only when it is truthy. */
  function ErrorResponse<T>(detail: Value, message: string := "An error occurred"): (r: Envelope<T>)
    ensures !r.success && r.data.None? && r.meta.None? && r.message == message
    ensures r.error.Some? <==> PyTruthy(detail)
    ensures r.error.Some? ==> r.error.value.Keys == {"detail"} && r.error.value["detail"] == detail
  {
    var content: Option<Record> := if PyTruthy(detail) then Some(map["detail" := detail]) else None;
    Envelope(false, message, None, content, None)
  }

  /**
   * `(total_items + page_size - 1) // page_size` for a positive page size, else 0. For a positive divisor
   * Dafny's Euclidean division rounds down exactly like Python's `//`.
   */
  function TotalPages(totalItems: int, pageSize: int): (totalPages: int)
    ensures pageSize <= 0 ==> totalPages == 0
    ensures pageSize > 0 && totalItems >= 0 ==>
      && totalPages >= 0
      && totalPages * pageSize >= totalItems
      && (totalItems > 0 ==> (totalPages - 1) * pageSize < totalItems)
      && (totalPages == 0 <==> totalItems == 0)
  {
    if pageSize > 0 then
      var n := totalItems + pageSize - 1;
      var q := n / pageSize;
      assert n == q * pageSize + n % pageSize;
      assert totalItems >= 0 ==> q >= 0;
      assert (q - 1) * pageSize == q * pageSize - pageSize;
      q
    else 0
  }

  /** `total_pages` is the least number of pages of `page_size` rows that holds every row. */
  lemma {:induction false} TotalPagesIsLeast(totalItems: int, pageSize: int, pages: int)
    requires pageSize > 0 && totalItems >= 0 && pages >= 0
    requires pages * pageSize >= totalItems
    ensures TotalPages(totalItems, pageSize) <= pages
  {
    var tp := TotalPages(totalItems, pageSize);
    if totalItems > 0 {
      var d := tp - 1 - pages;
      assert d * pageSize == (tp - 1) * pageSize - pages * pageSize;
      assert d * pageSize < 0;
    }
  }

  /** `paginated_response`: the rows of one page with the page metadata. */
  function PaginatedResponse<T>(data: seq<T>, totalItems: int, page: int, pageSize: int,
                                message: string := "Data retrieved successfully"): (r: Envelope<seq<T>>)
    ensures r.success && r.error.None? && r.data == Some(data) && r.message == message
    ensures r.meta.Some?
    ensures r.meta.value.currentPage == page && r.meta.value.pageSize == pageSize
    ensures r.meta.value.totalItems == totalItems
    ensures r.meta.value.totalPages == TotalPages(totalItems, pageSize)
    ensures r.meta.value.hasPrevious == (page > 1)
    ensures r.meta.value.hasNext == (page < r.meta.value.totalPages)
  {
    var totalPages := TotalPages(totalItems, pageSize);
    Envelope(true, message, Some(data), None,
             Some(PaginationMeta(page, pageSize, totalItems, totalPages, page > 1, page < totalPages)))
  }

  /**
   * The flags of a paginated response mean what their names say: there is a previous page exactly when
   * rows precede this page, and a next page exactly when rows remain after it.
   */
  lemma FlagsMatchRows<T>(data: seq<T>, totalItems: int, page: int, pageSize: int)
    requires pageSize > 0 && totalItems >= 0 && page >= 1
    ensures var m := PaginatedResponse(data, totalItems, page, pageSize).meta.value;
      && (m.hasPrevious <==> (page - 1) * pageSize > 0)
      && (m.hasNext <==> page * pageSize < totalItems)
  {
    NextPageFlag(totalItems, page, pageSize);
    if page > 1 {
      MulMonotone(1, page - 1, pageSize);
    }
  }

  /** A page before the last is followed by rows; from the last page on none remain. */
  lemma NextPageFlag(totalItems: int, page: int, pageSize: int)
    requires pageSize > 0 && totalItems >= 0 && page >= 1
    ensures page < TotalPages(totalItems, pageSize) <==> page * pageSize < totalItems
  {
    var tp := TotalPages(totalItems, pageSize);
    if page < tp {
      MulMonotone(page, tp - 1, pageSize);
    } else {
      MulMonotone(tp, page, pageSize);
    }
  }

  lemma MulMonotone(a: int, b: int, c: int)
    requires a <= b && c >= 0
    ensures a * c <= b * c
  {
    assert b * c - a * c == (b - a) * c;
  }
}
