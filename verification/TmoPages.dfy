/** Collecting a paginated listing from a server that may answer anything. */
module TmoPages {
  import opened Wrappers

  const MAX_PAGE := 0x7fff_ffff

  type I32 = x: int | -0x8000_0000 <= x <= 0x7fff_ffff

  datatype Page<T> = Page(page: I32, rowsPerPage: I32, totalCount: I32, data: seq<T>)

  /** `PageOverflow` is the source's invalid-response error at the page counter. */
  datatype ProviderError = Transport | InvalidResponse | PageOverflow

  /** What the server answers when asked for a page; None is a failed request. */
  type Server<T> = int -> Option<Page<T>>

  // ---- one page ----

  /** The page can follow `rows`, given the total announced before it. */
  predicate Acceptable<T>(rows: seq<T>, expectedTotal: Option<nat>, response: Page<T>, requestedPage: int) {
    && response.totalCount >= 0 && response.rowsPerPage > 0 && response.page == requestedPage
    && |response.data| <= response.rowsPerPage
    && (expectedTotal.Some? ==> expectedTotal.value == response.totalCount)
    && (response.data == [] ==> |rows| >= response.totalCount)
    && |rows| + |response.data| <= response.totalCount
  }

  class Collector<T> {
    var rows: seq<T>
    var expectedTotal: Option<nat>

    constructor ()
      ensures rows == [] && expectedTotal == None
    {
      rows, expectedTotal := [], None;
    }

    /** Appends an acceptable page and says whether the listing is complete. */
    method AppendPage(response: Page<T>, requestedPage: int) returns (r: Result<bool, ProviderError>)
      modifies this
      ensures r.Success? <==> Acceptable(old(rows), old(expectedTotal), response, requestedPage)
      ensures r.Success? ==>
                && rows == old(rows) + response.data && expectedTotal == Some(response.totalCount as int)
                && r.value == (|rows| == response.totalCount)
      ensures r.Failure? ==> r.error == InvalidResponse
    {
      if response.totalCount < 0 || response.rowsPerPage < 0 { return Failure(InvalidResponse); }
      var total: nat := response.totalCount;
      if response.page != requestedPage || response.rowsPerPage == 0 || |response.data| > response.rowsPerPage
         || (expectedTotal.Some? && expectedTotal.value != total) || (response.data == [] && |rows| < total) {
        return Failure(InvalidResponse);
      }
      expectedTotal := Some(total);
      rows := rows + response.data;
      if |rows| > total { return Failure(InvalidResponse); }
      r := Success(|rows| == total);
    }
  }

  // ---- the listing ----

  /** The rows of the first `n` pages, in order. */
  function Collected<T>(server: Server<T>, n: nat): seq<T>
  {
    if n == 0 then []
    else Collected(server, n - 1) + RowsAt(server, n)
  }

  function RowsAt<T>(server: Server<T>, i: int): seq<T> {
    match server(i) case None => [] case Some(p) => p.data
  }

  predicate PageFits<T>(server: Server<T>, i: nat, total: nat)
    requires i >= 1
  {
    server(i).Some? && server(i).value.totalCount == total
    && Acceptable(Collected(server, i - 1), None, server(i).value, i)
  }

  /** The first `n` pages are a whole listing: each fits and announces the same
      total, and only the last reaches it. */
  ghost predicate IsListing<T>(server: Server<T>, n: nat, total: nat)
  {
    && n >= 1 && (forall i :: 1 <= i <= n ==> PageFits(server, i, total))
    && (forall i :: 1 <= i < n ==> |Collected(server, i)| < total)
    && |Collected(server, n)| == total
  }

  /** The pages so far fit and leave something to collect. */
  ghost predicate IsPartial<T>(server: Server<T>, n: nat, total: nat)
  {
    forall i :: 1 <= i <= n ==> PageFits(server, i, total) && |Collected(server, i)| < total
  }

  ghost predicate DescribesListing<T>(server: Server<T>) {
    exists n: nat, total: nat :: IsListing(server, n, total)
  }

  lemma FittingPage<T>(server: Server<T>, i: nat, total: nat)
    requires i >= 1 && PageFits(server, i, total)
    ensures |Collected(server, i - 1)| < total ==> |Collected(server, i)| > |Collected(server, i - 1)|
    ensures |Collected(server, i)| <= total <= MAX_PAGE
  {
    assert Collected(server, i) == Collected(server, i - 1) + server(i).value.data;
  }

  /** Every page of an unfinished listing brings at least one row. */
  lemma {:induction false} PagesBringRows<T>(server: Server<T>, n: nat, total: nat)
    requires IsPartial(server, n, total)
    ensures |Collected(server, n)| >= n
  {
    hide Collected, PageFits;
    NothingYet(server);
    if n > 0 {
      PagesBringRows(server, n - 1, total);
      var fits, collected := PageFits(server, n, total), |Collected(server, n - 1)|;
      FittingPage(server, n, total);
    }
  }

  lemma NothingYet<T>(server: Server<T>)
    ensures Collected(server, 0) == []
  {
  }

  lemma ListingIsShort<T>(server: Server<T>, n: nat, total: nat)
    requires IsListing(server, n, total)
    ensures n <= if total == 0 then 1 else total
  {
    PagesBringRows(server, n - 1, total);
    hide Collected, PageFits;
    assert PageFits(server, n, total);
    FittingPage(server, n, total);
    NothingYet(server);
    if n > 1 { assert |Collected(server, n - 1)| < total; }
  }

  /** A server describes at most one listing. */
  lemma OneListing<T>(server: Server<T>, n: nat, total: nat, n': nat, total': nat)
    requires IsListing(server, n, total) && IsListing(server, n', total')
    ensures n == n' && total == total'
  {
    hide Collected, PageFits;
    SameTotal(server, 1, total, total');
    if n < n' { ListingEnds(server, n, n', total); }
    if n' < n { ListingEnds(server, n', n, total); }
  }

  lemma SameTotal<T>(server: Server<T>, i: nat, total: nat, total': nat)
    requires i >= 1 && PageFits(server, i, total) && PageFits(server, i, total')
    ensures total == total'
  {
  }

  lemma ListingEnds<T>(server: Server<T>, n: nat, n': nat, total: nat)
    requires n < n' && IsListing(server, n, total)
    ensures !IsListing(server, n', total)
  {
    hide Collected, PageFits;
  }

  lemma NoListing<T>(server: Server<T>, page: nat, total: nat)
    requires page >= 1 && IsPartial(server, page - 1, total)
    requires forall t: nat :: (page > 1 ==> t == total) ==> !PageFits(server, page, t)
    ensures !DescribesListing(server)
  {
    hide Collected, PageFits;
    forall n: nat, t: nat | true ensures !IsListing(server, n, t) {
      if IsListing(server, n, t) && page > 1 { SameTotal(server, 1, total, t); }
      var nextFits, collected := PageFits(server, page, t), |Collected(server, n)|;
    }
  }

  /** Whatever the server answers, the loop ends: with the whole listing in
      order, after no more pages than rows, exactly when the server describes
      one; otherwise with an error, and never with a page overflow. */
  method GetPortfolio<T>(server: Server<T>) returns (r: Result<seq<T>, ProviderError>, ghost pages: nat)
    ensures pages <= MAX_PAGE
    ensures r.Success? <==> DescribesListing(server)
    ensures r.Success? ==> IsListing(server, pages, |r.value|) && r.value == Collected(server, pages)
    ensures r.Success? ==> pages <= if r.value == [] then 1 else |r.value|
    ensures r.Failure? ==> r.error != PageOverflow
  {
    hide Collected, PageFits;
    var collector := new Collector<T>();
    var page: int := 1;
    pages := 0;
    ghost var total: nat := 0;
    ghost var left := MAX_PAGE + 1;
    NothingYet(server);
    while true
      invariant 1 <= page <= MAX_PAGE && pages == page - 1
      invariant collector.rows == Collected(server, page - 1)
      invariant collector.expectedTotal == if page == 1 then None else Some(total)
      invariant IsPartial(server, page - 1, total)
      invariant page > 1 ==> total <= MAX_PAGE && left == total - |collector.rows| > 0
      invariant page == 1 ==> left == MAX_PAGE + 1
      decreases left
    {
      var response := server(page);
      if response.None? {
        MissingPage(server, page, total);
        return Failure(Transport), pages;
      }
      var complete := collector.AppendPage(response.value, page);
      NextPage(server, page, total);
      if complete.Failure? {
        NoListing(server, page, total);
        return Failure(complete.error), pages;
      }
      total := response.value.totalCount;
      pages := page;
      FittingPage(server, page, total);
      if complete.value {
        assert IsListing(server, page, total);
        ListingIsShort(server, page, total);
        return Success(collector.rows), pages;
      }
      PagesBringRows(server, page, total);
      left := total - |collector.rows|;
      if page == MAX_PAGE {
        assert false;
        return Failure(PageOverflow), pages;
      }
      page := page + 1;
    }
  }

  lemma MissingPage<T>(server: Server<T>, page: nat, total: nat)
    requires page >= 1 && IsPartial(server, page - 1, total) && server(page).None?
    ensures !DescribesListing(server)
  {
    NoListing(server, page, total);
  }

  /** What an answered page means for the listing. */
  lemma NextPage<T>(server: Server<T>, page: nat, total: nat)
    requires page >= 1 && server(page).Some?
    ensures Collected(server, page) == Collected(server, page - 1) + server(page).value.data
    ensures var response := server(page).value;
            var expected := if page == 1 then None else Some(total);
            var accepted := Acceptable(Collected(server, page - 1), expected, response, page);
            if accepted then PageFits(server, page, response.totalCount) && (page > 1 ==> response.totalCount == total)
            else forall t: nat :: (page > 1 ==> t == total) ==> !PageFits(server, page, t)
  {
  }

  // ---- what a listing is ----

  /** The number of rows on the first `n` pages. */
  function RowCount<T>(server: Server<T>, n: nat): int {
    if n == 0 then 0 else RowCount(server, n - 1) + if server(n).Some? then |server(n).value.data| else 0
  }

  lemma {:induction false} CollectedCount<T>(server: Server<T>, n: nat)
    ensures |Collected(server, n)| == RowCount(server, n)
  {
    if n > 0 { CollectedCount(server, n - 1); }
  }

  /** The page says its own number, a positive size that it does not exceed and
      the total, and is not empty while rows are missing. */
  predicate SaysPage<T>(server: Server<T>, i: nat, total: nat)
    requires i >= 1
  {
    && server(i).Some?
    && var p, before := server(i).value, RowCount(server, i - 1);
       && p.page == i && p.totalCount == total && p.rowsPerPage >= 1 && |p.data| <= p.rowsPerPage
       && (|p.data| == 0 ==> before >= total) && before + |p.data| <= total
  }

  ghost predicate SaysListing<T>(server: Server<T>, n: nat, total: nat) {
    && n >= 1 && RowCount(server, n) == total
    && (forall i :: 1 <= i <= n ==> SaysPage(server, i, total))
    && (forall i :: 1 <= i < n ==> RowCount(server, i) < total)
  }

  /** Pages are a listing exactly if each says its number, size and total, and
      the rows reach the total with the last page and not before. */
  lemma ListingIs<T>(server: Server<T>, n: nat, total: nat)
    ensures IsListing(server, n, total) <==> SaysListing(server, n, total)
  {
    hide PageFits, SaysPage, Collected, RowCount;
    CollectedCount(server, n);
    if IsListing(server, n, total) {
      forall i | 1 <= i <= n ensures SaysPage(server, i, total) { PageSays(server, i, total); }
      forall i | 1 <= i < n ensures RowCount(server, i) < total { CollectedCount(server, i); }
    }
    if SaysListing(server, n, total) {
      forall i | 1 <= i <= n ensures PageFits(server, i, total) { PageSays(server, i, total); }
      forall i | 1 <= i < n ensures |Collected(server, i)| < total { CollectedCount(server, i); }
    }
  }

  lemma PageSays<T>(server: Server<T>, i: nat, total: nat)
    requires i >= 1
    ensures PageFits(server, i, total) <==> SaysPage(server, i, total)
  {
    CollectedCount(server, i - 1);
    hide Collected, RowCount;
  }
}
