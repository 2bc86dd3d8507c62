/** Shared response bodies: plain and error messages, and the paginated list
    whose page count `create` derives from the total and the page size. */
module CommonSchemas {
  import opened Wrappers

  /** `MessageResponse`; `success` is `true` unless given. */
  datatype MessageResponse = MessageResponse(message: string, success: bool)

  function NewMessageResponse(message: string, success: Option<bool>): (r: MessageResponse)
    ensures r.message == message
    ensures success.None? ==> r.success
    ensures success.Some? ==> r.success == success.value
  {
    MessageResponse(message, success.GetOr(true))
  }

  /** `ErrorResponse`; `detail` is absent and `success` is `false` unless given. */
  datatype ErrorResponse = ErrorResponse(error: string, detail: Option<string>, success: bool)

  function NewErrorResponse(error: string, detail: Option<string>, success: Option<bool>): (r: ErrorResponse)
    ensures r.error == error && r.detail == detail
    ensures success.None? ==> !r.success
    ensures success.Some? ==> r.success == success.value
  {
    ErrorResponse(error, detail, success.GetOr(false))
  }

  // ---------------------------------------------------------------------
  // Pagination

  const MaxPageSize := 100

  datatype PaginatedResponse<T> = PaginatedResponse(items: seq<T>, total: int, page: int, pageSize: int, pages: int)

  /** `create` either raises on the division or fails validation of the
      response it builds. */
  datatype CreateError = ZeroDivision | Validation(fields: set<string>)

  /** Integer division rounding toward negative infinity, as `//` does. */
  function FloorDiv(a: int, b: int): (q: int)
    requires b != 0
    ensures b > 0 ==> q * b <= a < q * b + b
    ensures b < 0 ==> q * b >= a > q * b + b
  {
    if b > 0 then a / b else (-a) / (-b)
  }

  /** `PaginatedResponse.create`: the page count is computed first, then the
      response is validated, which requires `page >= 1` and
      `1 <= page_size <= 100` and reports every failing field. */
  function Create<T>(items: seq<T>, total: int, page: int, pageSize: int): (r: Result<PaginatedResponse<T>, CreateError>)
    ensures r == Failure(ZeroDivision) <==> pageSize == 0
    ensures r.Success? <==> page >= 1 && 1 <= pageSize <= 100
    ensures r.Success? ==>
              && r.value.items == items && r.value.total == total
              && r.value.page == page && r.value.pageSize == pageSize
    ensures r.Failure? && r.error.Validation? ==>
              && r.error.fields != {}
              && ("page" in r.error.fields <==> page < 1)
              && ("page_size" in r.error.fields <==> !(1 <= pageSize <= 100))
  {
    if pageSize == 0 then Failure(ZeroDivision)
    else
      var pages := FloorDiv(total + pageSize - 1, pageSize);
      var errors := (if page >= 1 then {} else {"page"})
                    + (if 1 <= pageSize <= MaxPageSize then {} else {"page_size"});
      if errors != {} then Failure(Validation(errors))
      else Success(PaginatedResponse(items, total, page, pageSize, pages))
  }

  /** The page count is the ceiling of `total / page_size`: the fewest pages
      of `page_size` items that hold `total` items, and none for no items. */
  lemma {:induction false} PagesIsCeiling<T>(items: seq<T>, total: int, page: int, pageSize: int)
    requires Create(items, total, page, pageSize).Success?
    requires total >= 0
    ensures var n := Create(items, total, page, pageSize).value.pages;
            && n >= 0
            && n * pageSize >= total
            && (total > 0 ==> (n - 1) * pageSize < total)
            && (total == 0 ==> n == 0)
  {
    var n := FloorDiv(total + pageSize - 1, pageSize);
    assert n * pageSize <= total + pageSize - 1 < n * pageSize + pageSize;
    assert (n - 1) * pageSize == n * pageSize - pageSize;
    if total == 0 {
      assert n * pageSize <= pageSize - 1;
      assert n < 1;
    }
  }

  /** Any two counts of pages that are both ceilings are equal, so the page
      count is determined by `total` and `page_size` alone. */
  lemma CeilingUnique(total: int, pageSize: int, n: int, m: int)
    requires pageSize >= 1
    requires n * pageSize >= total && (n - 1) * pageSize < total
    requires m * pageSize >= total && (m - 1) * pageSize < total
    ensures n == m
  {
    if n < m {
      assert (m - 1) * pageSize >= n * pageSize by {
        assert m - 1 >= n;
        MulMonotone(n, m - 1, pageSize);
      }
    } else if m < n {
      assert (n - 1) * pageSize >= m * pageSize by {
        MulMonotone(m, n - 1, pageSize);
      }
    }
  }

  lemma MulMonotone(a: int, b: int, c: int)
    requires a <= b && c >= 0
    ensures a * c <= b * c
  {
    assert b * c - a * c == (b - a) * c;
  }
}
