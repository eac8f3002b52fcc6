/**
 * Paging through orders in the admin area: the list endpoint
 * (app/api/admin/orders/route.ts) reads `page`, `limit` and `status` from the
 * query string and answers with a page of orders and the page count; the
 * orders page (app/admin/orders/page.tsx) keeps the current page and status,
 * builds the query and shows the range and the prev/next controls.
 */
module AdminOrders {
  import opened Wrappers
  import opened Text
  import opened Fields

  // ------------------------------------------------------------ parseInt

  predicate IsHexDigit(c: char) {
    IsAsciiDigit(c) || 'a' <= c <= 'f' || 'A' <= c <= 'F'
  }

  /** A digit of the radix in use: sixteen after a `0x` prefix, ten otherwise. */
  predicate IsDigitOf(c: char, hex: bool) {
    if hex then IsHexDigit(c) else IsAsciiDigit(c)
  }

  function DigitOf(c: char, hex: bool): (d: nat)
    requires IsDigitOf(c, hex)
    ensures d < (if hex then 16 else 10)
  {
    if IsAsciiDigit(c) then DigitValue(c)
    else if 'a' <= c <= 'f' then c as nat - 'a' as nat + 10
    else c as nat - 'A' as nat + 10
  }

  /** The value of a run of digits in the radix. */
  function DigitsValue(s: string, hex: bool): nat
    requires forall i :: 0 <= i < |s| ==> IsDigitOf(s[i], hex)
  {
    if |s| == 0 then 0
    else DigitsValue(s[..|s| - 1], hex) * (if hex then 16 else 10) + DigitOf(s[|s| - 1], hex)
  }

  /** In radix ten the digit run has its decimal value. */
  lemma {:induction false} DecimalDigitsValue(s: string)
    requires All(s, IsAsciiDigit)
    ensures DigitsValue(s, false) == DecimalValue(s)
  {
    if |s| > 0 {
      DecimalDigitsValue(s[..|s| - 1]);
    }
  }

  /**
   * `parseInt(s)` with no radix: leading white space skipped, an optional
   * sign, a `0x`/`0X` prefix switching to hexadecimal, then the longest run
   * of digits; no digit at all is `NaN`, written `None`.
   */
  function ParseInt(s: string): (r: Option<int>)
    ensures r.None? <==> (
      var a := SignEnd(s);
      var hex := HexPrefix(s, a);
      var from := if hex then a + 2 else a;
      from == |s| || !IsDigitOf(s[from], hex))
  {
    var a := SignEnd(s);
    var hex := HexPrefix(s, a);
    var from := if hex then a + 2 else a;
    var end := SkipWhile(s, c => IsDigitOf(c, hex), from);
    if end == from then None
    else
      var v: int := DigitsValue(s[from..end], hex);
      Some(if Negative(s) then -v else v)
  }

  /** Where the digits (or the `0x` prefix) start: after the white space and one sign. */
  function SignEnd(s: string): (a: nat)
    ensures a <= |s|
  {
    var start := SkipWhile(s, IsWhitespace, 0);
    if start < |s| && (s[start] == '-' || s[start] == '+') then start + 1 else start
  }

  predicate Negative(s: string) {
    var start := SkipWhile(s, IsWhitespace, 0);
    start < |s| && s[start] == '-'
  }

  predicate HexPrefix(s: string, a: nat) {
    a + 2 <= |s| && s[a] == '0' && (s[a + 1] == 'x' || s[a + 1] == 'X')
  }

  /** `parseInt` reads back what `String` writes, for every integer. */
  lemma ParseIntRoundTrip(i: int)
    ensures ParseInt(IntToDecimal(i)) == Some(i)
  {
    var s := IntToDecimal(i);
    var n := if i < 0 then -i else i;
    var d := NatToDecimal(n);
    var a := if i < 0 then 1 else 0;
    assert s[a..] == d;
    assert SkipWhile(s, IsWhitespace, 0) == 0 by {
      assert !IsWhitespace(s[0]);
    }
    assert SignEnd(s) == a;
    assert !HexPrefix(s, a) by {
      if |d| >= 2 {
        assert s[a + 1] == d[1];
      }
    }
    assert forall j :: a <= j < |s| ==> s[j] == d[j - a];
    var end := SkipWhile(s, c => IsDigitOf(c, false), a);
    assert end == |s|;
    assert s[a..end] == d;
    DecimalDigitsValue(d);
  }

  /** The empty string and text without digits are `NaN`. */
  lemma ParseIntNaN(s: string)
    requires forall i :: 0 <= i < |s| ==> !IsHexDigit(s[i])
    ensures ParseInt(s).None?
  {
    var a := SignEnd(s);
    if a < |s| {
      assert !IsHexDigit(s[a]);
    }
  }

  // ------------------------------------------------------------ the endpoint

  /** The query string as the endpoint reads it: `searchParams.get(...)` of each key. */
  datatype OrdersQuery = OrdersQuery(status: Option<string>, page: Option<string>, limit: Option<string>)

  /** `x || fallback` on a query value. */
  function OrDefault(field: Option<string>, fallback: string): (r: string)
    ensures Truthy(field) ==> r == field.value
    ensures !Truthy(field) ==> r == fallback
  {
    if Truthy(field) then field.value else fallback
  }

  const DefaultPage := "1"
  const DefaultLimit := "20"

  /** What the endpoint asks the database for; `None` numbers are `NaN`. */
  datatype Listing = Listing(filter: Option<string>, page: Option<int>, limit: Option<int>, skip: Option<int>)

  datatype OrdersResponse = Unauthorized | Listed(listing: Listing)

  /** `status && status !== 'ALL'`: filter by the status unless it is empty or `ALL`. */
  function StatusFilter(status: Option<string>): (f: Option<string>)
    ensures f.Some? <==> Truthy(status) && status.value != "ALL"
    ensures f.Some? ==> f == status
  {
    if Truthy(status) && status.value != "ALL" then status else None
  }

  /**
   * The GET handler up to the database call: 401 for a visitor who is not
   * signed in, before anything is read; otherwise the parsed page and limit,
   * `skip = (page - 1) * limit` and the status filter.
   */
  /** Prisma's `skip`: the orders on the pages before this one, when both numbers parsed. */
  function Offset(page: Option<int>, limit: Option<int>): (skip: Option<int>)
    ensures skip.Some? <==> page.Some? && limit.Some?
    ensures skip.Some? ==> skip.value == (page.value - 1) * limit.value
  {
    if page.Some? && limit.Some? then Some((page.value - 1) * limit.value) else None
  }

  function ListOrders(authenticated: bool, q: OrdersQuery): (r: OrdersResponse)
    ensures r.Unauthorized? <==> !authenticated
    ensures r.Listed? ==> r.listing.page == ParseInt(OrDefault(q.page, DefaultPage))
    ensures r.Listed? ==> r.listing.limit == ParseInt(OrDefault(q.limit, DefaultLimit))
    ensures r.Listed? ==> r.listing.filter == StatusFilter(q.status)
    ensures r.Listed? ==> r.listing.skip == Offset(r.listing.page, r.listing.limit)
  {
    if !authenticated then Unauthorized
    else
      var page := ParseInt(OrDefault(q.page, DefaultPage));
      var limit := ParseInt(OrDefault(q.limit, DefaultLimit));
      Listed(Listing(StatusFilter(q.status), page, limit, Offset(page, limit)))
  }

  /** Without `page` and `limit` the endpoint serves the first twenty orders. */
  lemma Defaults(status: Option<string>)
    ensures ListOrders(true, OrdersQuery(status, None, None))
      == Listed(Listing(StatusFilter(status), Some(1), Some(20), Some(0)))
  {
    ParseIntRoundTrip(1);
    ParseIntRoundTrip(20);
    assert IntToDecimal(1) == DefaultPage;
    assert IntToDecimal(20) == DefaultLimit;
  }

  /** `Math.ceil(x)`. */
  function Ceil(x: real): (c: int)
    ensures (c - 1) as real < x <= c as real
  {
    -((-x).Floor)
  }

  /** `Math.ceil(total / limit)`; `None` when the division is not finite (a zero limit). */
  function TotalPages(total: nat, limit: int): (r: Option<int>)
    ensures r.None? <==> limit == 0
  {
    if limit == 0 then None else Some(Ceil(total as real / limit as real))
  }

  /** With a positive limit the page count is the integer ceiling of the division. */
  lemma TotalPagesIsCeilDiv(total: nat, limit: int)
    requires limit >= 1
    ensures TotalPages(total, limit) == Some((total + limit - 1) / limit)
  {
    var q := total as real / limit as real;
    var t := Ceil(q);
    assert q * limit as real == total as real;
    assert (t - 1) as real * limit as real < total as real by {
      assert (t - 1) as real < q;
    }
    assert total as real <= t as real * limit as real by {
      assert q <= t as real;
    }
    assert (t - 1) * limit < total <= t * limit;
    CeilDivUnique(total, limit, t);
  }

  lemma CeilDivUnique(total: nat, limit: int, t: int)
    requires limit >= 1 && (t - 1) * limit < total <= t * limit
    ensures (total + limit - 1) / limit == t
  {
    var m := total + limit - 1;
    var k := m / limit;
    var r := m % limit;
    assert m == k * limit + r && 0 <= r < limit;
    assert t * limit <= m < t * limit + limit;
    assert (k - t) * limit == k * limit - t * limit;
    assert -limit < (k - t) * limit < limit;
    MultipleAtLeastFactor(k - t, limit);
  }

  /** A non-zero multiple of a positive factor is at least the factor in size. */
  lemma MultipleAtLeastFactor(d: int, limit: int)
    requires limit >= 1
    ensures d >= 1 ==> d * limit >= limit
    ensures d <= -1 ==> d * limit <= -limit
  {
    if d >= 1 {
      assert d * limit == (d - 1) * limit + limit;
    } else if d <= -1 {
      assert d * limit == (d + 1) * limit - limit;
    }
  }

  /** The pages cover the orders, the last page is not empty, and no orders means no pages. */
  lemma TotalPagesBounds(total: nat, limit: int)
    requires limit >= 1
    ensures var t := TotalPages(total, limit).value;
      && t >= 0
      && t * limit >= total
      && (total > 0 ==> (t - 1) * limit < total)
      && (t == 0 <==> total == 0)
  {
    TotalPagesIsCeilDiv(total, limit);
    var t := (total + limit - 1) / limit;
    assert t * limit <= total + limit - 1 < (t + 1) * limit;
  }

  /** The `pagination` object of the answer: page and limit echo the parsed inputs. */
  datatype Pagination = Pagination(page: Option<int>, limit: Option<int>, total: nat, totalPages: Option<int>)

  function PaginationOf(l: Listing, total: nat): (p: Pagination)
    ensures p.page == l.page && p.limit == l.limit && p.total == total
    ensures l.limit.Some? && l.limit.value != 0 ==> p.totalPages == TotalPages(total, l.limit.value)
    ensures l.limit.None? || l.limit.value == 0 ==> p.totalPages.None?
  {
    Pagination(l.page, l.limit, total,
      if l.limit.Some? then TotalPages(total, l.limit.value) else None)
  }

  // ------------------------------------------------------------ the orders page

  /** The page's own state: the chosen status and the current page. */
  datatype PageState = PageState(status: string, page: int)

  const InitialState := PageState("ALL", 1)
  const PageSize := 20

  /** The query string of a fetch: the page, limit 20, and the status unless it is `ALL`. */
  function FetchParams(s: PageState): seq<(string, string)> {
    [("page", IntToDecimal(s.page)), ("limit", IntToDecimal(PageSize))]
    + (if s.status != "ALL" then [("status", s.status)] else [])
  }

  /** `URLSearchParams.get`: the first value under the key. */
  function Get(params: seq<(string, string)>, key: string): (r: Option<string>)
    ensures r.Some? ==> exists i :: 0 <= i < |params| && params[i] == (key, r.value)
    ensures r.None? <==> forall i :: 0 <= i < |params| ==> params[i].0 != key
  {
    if |params| == 0 then None
    else if params[0].0 == key then Some(params[0].1)
    else
      var r := Get(params[1..], key);
      if r.Some? then
        var i :| 0 <= i < |params[1..]| && params[1..][i] == (key, r.value);
        assert params[i + 1] == (key, r.value);
        r
      else r
  }

  function QueryOf(params: seq<(string, string)>): OrdersQuery {
    OrdersQuery(Get(params, "status"), Get(params, "page"), Get(params, "limit"))
  }

  /**
   * What the page asks for is what the endpoint serves: the current page,
   * twenty per page from `(page - 1) * 20`, and the status filter exactly
   * when a status other than `ALL` is chosen.
   */
  lemma FetchRoundTrip(s: PageState)
    ensures ListOrders(true, QueryOf(FetchParams(s))) == Listed(Listing(
      if s.status != "ALL" && s.status != "" then Some(s.status) else None,
      Some(s.page), Some(PageSize), Some((s.page - 1) * PageSize)))
  {
    var q := QueryOf(FetchParams(s));
    FetchQuery(s);
    assert ParseInt(OrDefault(q.page, DefaultPage)) == Some(s.page) by {
      ParseIntRoundTrip(s.page);
    }
    assert ParseInt(OrDefault(q.limit, DefaultLimit)) == Some(PageSize) by {
      ParseIntRoundTrip(PageSize);
    }
  }

  /** The keys the endpoint reads, as the page writes them. */
  lemma FetchQuery(s: PageState)
    ensures QueryOf(FetchParams(s)) == OrdersQuery(
      if s.status != "ALL" then Some(s.status) else None,
      Some(IntToDecimal(s.page)), Some(IntToDecimal(PageSize)))
  {
    var params := FetchParams(s);
    var rest := params[1..];
    assert params[0] == ("page", IntToDecimal(s.page));
    assert rest[0] == ("limit", IntToDecimal(PageSize));
    assert Get(params, "page") == Some(IntToDecimal(s.page));
    assert Get(rest, "limit") == Some(IntToDecimal(PageSize));
    assert Get(params, "limit") == Get(rest, "limit");
    assert Get(params, "status") == Get(rest, "status");
    assert Get(rest, "status") == Get(rest[1..], "status");
    if s.status != "ALL" {
      assert rest[1..] == [("status", s.status)];
    } else {
      assert rest[1..] == [];
    }
  }

  datatype PageEvent = SelectStatus(status: string) | Prev | Next

  /**
   * One click: choosing a status goes back to page one; prev is
   * `max(1, p - 1)`, next is `min(totalPages, p + 1)`.
   */
  function StepPage(s: PageState, totalPages: int, e: PageEvent): (r: PageState)
    ensures e.SelectStatus? ==> r == PageState(e.status, 1)
    ensures e.Prev? ==> r.status == s.status && r.page == (if s.page - 1 > 1 then s.page - 1 else 1)
    ensures e.Next? ==> r.status == s.status && r.page == (if s.page + 1 < totalPages then s.page + 1 else totalPages)
  {
    match e
    case SelectStatus(status) => PageState(status, 1)
    case Prev => s.(page := if s.page - 1 > 1 then s.page - 1 else 1)
    case Next => s.(page := if s.page + 1 < totalPages then s.page + 1 else totalPages)
  }

  function RunPages(s: PageState, totalPages: int, events: seq<PageEvent>): PageState
    decreases |events|
  {
    if |events| == 0 then s else RunPages(StepPage(s, totalPages, events[0]), totalPages, events[1..])
  }

  /** Whatever is clicked, the page stays between one and the page count. */
  lemma {:induction false} PageStaysInRange(s: PageState, totalPages: int, events: seq<PageEvent>)
    requires 1 <= s.page <= totalPages
    ensures 1 <= RunPages(s, totalPages, events).page <= totalPages
    decreases |events|
  {
    if |events| > 0 {
      PageStaysInRange(StepPage(s, totalPages, events[0]), totalPages, events[1..]);
    }
  }

  /**
   * The controls sit in the branch that renders the table: not while loading,
   * not for an empty list, and then only when there is more than one page.
   */
  function ControlsShown(loading: bool, orderCount: nat, p: Option<Pagination>): (b: bool)
    ensures b <==> !loading && orderCount > 0 && p.Some? && p.value.totalPages.Some? && p.value.totalPages.value > 1
  {
    if loading then false
    else if orderCount == 0 then false
    else p.Some? && p.value.totalPages.Some? && p.value.totalPages.value > 1
  }

  /**
   * Once a non-empty list is on screen, the controls show exactly when the
   * matching orders do not fit on one page.
   */
  lemma ControlsIffMoreThanOnePage(l: Listing, total: nat, orderCount: nat)
    requires l.limit.Some? && l.limit.value >= 1 && orderCount > 0
    ensures ControlsShown(false, orderCount, Some(PaginationOf(l, total))) <==> total > l.limit.value
  {
    var limit := l.limit.value;
    TotalPagesBounds(total, limit);
    var t := TotalPages(total, limit).value;
    assert PaginationOf(l, total).totalPages == Some(t);
    if t > 1 {
      assert (t - 1) * limit >= limit by { MulMono(1, t - 1, limit); }
    } else {
      assert t * limit <= limit by { MulMono(t, 1, limit); }
    }
  }

  /** Multiplying by a non-negative factor keeps the order. */
  lemma MulMono(a: int, b: int, c: int)
    requires a <= b && c >= 0
    ensures a * c <= b * c
  {
  }

  /** "showing from–to of total": `(page - 1) * limit + 1` to `min(page * limit, total)`. */
  function RangeShown(page: int, limit: int, total: nat): (r: (int, int))
    ensures r.1 <= total
    ensures r.0 == (page - 1) * limit + 1
  {
    ((page - 1) * limit + 1, if page * limit < total then page * limit else total)
  }

  /**
   * On any page from one to the page count the range is a non-empty stretch
   * of the orders that holds at most one page of them.
   */
  lemma RangeWithinTotal(page: int, limit: int, total: nat)
    requires limit >= 1 && total > 0
    requires 1 <= page <= TotalPages(total, limit).value
    ensures var r := RangeShown(page, limit, total);
      1 <= r.0 <= r.1 <= total && r.1 - r.0 + 1 <= limit
  {
    TotalPagesBounds(total, limit);
    var t := TotalPages(total, limit).value;
    assert (page - 1) * limit <= (t - 1) * limit;
  }
}
