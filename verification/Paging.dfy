/**
 Client and server paging: internal/api/pagination.go, the OFFSET and LIMIT of internal/db/scans_api_store.go, and the
 loop of internal/cli/client.go. The rows are in one fixed order for the whole loop.
 */
module Paging {
  import opened Wrappers
  import opened Int64
  import opened Text

  // ---------------------------------------------------------------- decimal numbers

  /** strconv.Atoi; None is a syntax or range error. */
  function Atoi(s: string): Option<int> {
    var signed := s != "" && (s[0] == '-' || s[0] == '+');
    var digits := if signed then s[1..] else s;
    if digits == "" || exists c <- digits :: !IsDigit(c) then None
    else
      var m: int := Number(digits);
      var n := if s[0] == '-' then -m else m;
      if -MAX - 1 <= n <= MAX then Some(n) else None
  }

  /** fmt.Sprintf("%d", n). */
  function Decimal(n: nat): (s: string)
    ensures s != "" && forall c <- s :: IsDigit(c)
    ensures Number(s) == n
  {
    var last := [(n % 10 + '0' as int) as char];
    if n < 10 then last
    else
      var s := Decimal(n / 10) + last;
      assert s[..|s| - 1] == Decimal(n / 10);
      s
  }

  lemma AtoiDecimal(n: nat)
    requires n <= MAX
    ensures Atoi(Decimal(n)) == Some(n)
  {
    var s := Decimal(n);
    assert s[0] in s;
  }

  // ---------------------------------------------------------------- the server

  datatype Page = Page(page: int, perPage: int, offset: int)

  function Positive(v: string, default: int): int {
    if v == "" then default
    else
      match Atoi(v)
      case Some(p) => if p > 0 then p else default
      case None => default
  }

  /** What the two query parameters ask for, "" where one is absent; offsets are int64. */
  function Pagination(page: string, perPage: string): Page {
    var p, n := Positive(page, 1), Positive(perPage, 20);
    var limit := if n > 100 then 100 else n;
    Page(p, limit, Wrap64((p - 1) * limit))
  }

  method ParsePagination(pageParam: string, perPageParam: string) returns (page: int, perPage: int, offset: int)
    ensures Page(page, perPage, offset) == Pagination(pageParam, perPageParam)
    ensures 1 <= page <= MAX && 1 <= perPage <= 100
    ensures (page - 1) * perPage <= MAX ==> offset == (page - 1) * perPage
  {
    hide Atoi;
    page, perPage := 1, 20;
    AtoiInRange(pageParam);
    AtoiInRange(perPageParam);
    if pageParam != "" {
      var p := Atoi(pageParam);
      if p.Some? && p.value > 0 {
        page := p.value;
      }
    }
    if perPageParam != "" {
      var p := Atoi(perPageParam);
      if p.Some? && p.value > 0 {
        perPage := p.value;
      }
    }
    if perPage > 100 {
      perPage := 100;
    }
    NotNegative(page - 1, perPage);
    offset := Wrap64((page - 1) * perPage);
  }

  lemma AtoiInRange(s: string)
    ensures Atoi(s).Some? ==> Atoi(s).value <= MAX
  {
  }

  lemma NotNegative(a: int, b: int)
    requires a >= 0 && b >= 0
    ensures a * b >= 0
  {
  }

  /** What a caller who asks for page p with n rows gets, and one who asks for nothing. */
  lemma PageRequested(p: nat, n: nat)
    requires 0 < p <= MAX && 0 < n <= MAX
    ensures
      var page := Pagination(Decimal(p), Decimal(n));
      && page.page == p && page.perPage == (if n <= 100 then n else 100)
      && ((p - 1) * page.perPage <= MAX ==> page.offset == (p - 1) * page.perPage)
    ensures Pagination("", "") == Page(1, 20, 0)
  {
    hide Atoi, Decimal, Number, IsDigit;
    AtoiDecimal(p);
    AtoiDecimal(n);
    var limit := if n <= 100 then n else 100;
    NotNegative(p - 1, limit);
    assert Positive(Decimal(p), 1) == p && Positive(Decimal(n), 20) == n;
    WrapFits((p - 1) * limit);
    WrapFits(0);
    hide Wrap64;
    assert Positive("", 1) == 1 && Positive("", 20) == 20;
    hide Positive;
  }

  lemma WrapFits(x: int)
    requires 0 <= x
    ensures x <= MAX ==> Wrap64(x) == x
  {
  }

  /** SELECT ... OFFSET offset LIMIT limit; a negative offset is an error. */
  function Slice<T>(rows: seq<T>, offset: int, limit: int): Option<seq<T>>
    requires limit >= 0
  {
    if offset < 0 then None
    else if offset >= |rows| then Some([])
    else if offset + limit >= |rows| then Some(rows[offset..])
    else Some(rows[offset..offset + limit])
  }

  /** One answer of the server: a page and the total. */
  method ListFindings<T>(rows: seq<T>, page: string, perPage: string) returns (batch: Option<seq<T>>, total: nat)
    ensures batch == Slice(rows, Pagination(page, perPage).offset, Pagination(page, perPage).perPage)
    ensures total == |rows|
  {
    var p, limit, offset := ParsePagination(page, perPage);
    assert Pagination(page, perPage) == Page(p, limit, offset);
    batch, total := Slice(rows, offset, limit), |rows|;
  }

  // ---------------------------------------------------------------- the client

  const PAGE_SIZE := 100

  const LAST_PAGE := 10_000

  /** What the client's request for a page gets. */
  lemma PageOf<T>(rows: seq<T>, page: nat)
    requires 1 <= page <= LAST_PAGE
    ensures var p := Pagination(Decimal(page), Decimal(PAGE_SIZE));
      p == Page(page, PAGE_SIZE, (page - 1) * PAGE_SIZE)
  {
    hide Atoi, Decimal, Number, IsDigit;
    AtoiDecimal(page);
    AtoiDecimal(PAGE_SIZE);
    assert Positive(Decimal(page), 1) == page && Positive(Decimal(PAGE_SIZE), 20) == PAGE_SIZE;
    hide Positive;
  }

  /** The first n rows, or all when there are fewer. */
  function Upto<T>(rows: seq<T>, n: nat): seq<T> {
    if n <= |rows| then rows[..n] else rows
  }

  /** One more page. */
  lemma PageGot<T>(rows: seq<T>, page: nat)
    requires page >= 1
    ensures
      var offset := (page - 1) * PAGE_SIZE;
      var batch := Slice(rows, offset, PAGE_SIZE);
      && batch.Some? && Upto(rows, offset) + batch.value == Upto(rows, page * PAGE_SIZE)
      && (|batch.value| < PAGE_SIZE ==> |rows| < page * PAGE_SIZE)
      && (|batch.value| == 0 <==> |rows| <= offset)
      && |Upto(rows, page * PAGE_SIZE)| == (if page * PAGE_SIZE <= |rows| then page * PAGE_SIZE else |rows|)
      && (|rows| <= page * PAGE_SIZE ==> Upto(rows, page * PAGE_SIZE) == rows)
  {
  }

  lemma UptoEnds<T>(rows: seq<T>)
    ensures Upto(rows, 0) == []
    ensures |rows| <= 1_000_000 ==> Upto(rows, 1_000_000) == rows
    ensures |rows| > 1_000_000 ==> |Upto(rows, 1_000_000)| == 1_000_000
  {
  }

  /**
   ListAllFindings, when the k-th request fails for the k with `fails(k)`; None is a failed request. Otherwise the
   client has the first million rows, each once and in order, which is the whole list exactly when there are no more.
   */
  method ListAllFindings<T(==)>(rows: seq<T>, fails: nat -> bool) returns (all: Option<seq<T>>, requests: nat)
    ensures all.None? <==> requests > 0 && fails(requests)
    ensures forall k :: 0 < k < requests ==> !fails(k)
    ensures all.Some? ==> all.value == Upto(rows, 1_000_000)
    ensures all.Some? ==> (all.value == rows <==> |rows| <= 1_000_000)
    ensures requests <= LAST_PAGE && requests <= |rows| / PAGE_SIZE + 1
  {
    hide Pagination, Decimal, Slice, Upto;
    UptoEnds(rows);
    var got: seq<T> := [];
    var page := 1;
    requests := 0;
    while true
      invariant 1 <= page <= LAST_PAGE && requests == page - 1
      invariant got == Upto(rows, (page - 1) * PAGE_SIZE)
      invariant page > 1 ==> (page - 1) * PAGE_SIZE < |rows|
      invariant forall k :: 0 < k <= requests ==> !fails(k)
      decreases LAST_PAGE - page
    {
      PageOf(rows, page);
      PageGot(rows, page);
      var batch, total := ListFindings(rows, Decimal(page), Decimal(PAGE_SIZE));
      requests := requests + 1;
      if fails(requests) || batch.None? {
        return None, requests;
      }
      got := got + batch.value;
      if |batch.value| == 0 {
        break;
      }
      if |batch.value| < PAGE_SIZE || |got| >= total {
        break;
      }
      page := page + 1;
      if page > LAST_PAGE {
        break;
      }
    }
    all := Some(got);
  }
}
