/** What the list endpoints share: the query-string defaults, the `$sort` stage each
    pipeline ends with, the paginator the handlers hand their pipeline to, and the
    zero-result envelope the handlers build themselves when a page comes back empty. */
module Listing {
  import opened Common

  /** `req.query` of a list endpoint, after `Number(...)`: every field optional. */
  datatype ListQuery = ListQuery(page: Option<int>, limit: Option<int>,
                                 sortBy: Option<string>, sortType: Option<string>)

  function PageNumber(q: ListQuery): int { q.page.GetOr(1) }
  function LimitNumber(q: ListQuery): int { q.limit.GetOr(10) }
  function SortField(q: ListQuery): string { q.sortBy.GetOr("createdAt") }

  /** `sortType === "asc" ? 1 : -1`, with `sortType` defaulting to "desc". */
  predicate Ascending(q: ListQuery) { q.sortType == Some("asc") }

  /** The defaults the handlers destructure `req.query` with. */
  lemma QueryDefaults()
    ensures var q := ListQuery(None, None, None, None);
      PageNumber(q) == 1 && LimitNumber(q) == 10 && SortField(q) == "createdAt" && !Ascending(q)
  {
  }

  /** Only the exact string "asc" sorts ascending; anything else, including "ASC" and a
      missing value, sorts descending. */
  lemma AscendingOnlyForAsc(q: ListQuery)
    ensures Ascending(q) <==> q.sortType.Some? && q.sortType.value == "asc"
  {
  }

  // ---------------------------------------------------------------------------
  // Pages

  /** The paginated result object (`totalDocs`, `docs` and the paging fields, under the
      custom labels each handler chooses). */
  datatype Page<R> = Page(totalDocs: int, docs: seq<R>, page: int, limit: int,
                          totalPages: int, hasNextPage: bool, hasPrevPage: bool,
                          nextPage: Option<int>, prevPage: Option<int>)

  /** `Model.aggregatePaginate(pipeline, {page, limit})`, given the pipeline's full output.
      The paging library is not part of this model, so the handlers take it as a
      parameter. */
  type Paginator<!R> = (seq<R>, int, int) -> Page<R>

  /** The envelope a handler answers with when the page holds no documents. */
  function EmptyPage<R>(page: int, limit: int): (r: Page<R>)
    ensures r.docs == [] && r.totalDocs == 0 && r.totalPages == 0
    ensures !r.hasNextPage && !r.hasPrevPage && r.nextPage.None? && r.prevPage.None?
    ensures r.page == page && r.limit == limit
  {
    Page(0, [], page, limit, 0, false, false, None, None)
  }

  /** `if (!result.docs || result.docs.length === 0) return <zero envelope>; return result`. */
  function OrEmptyPage<R>(result: Page<R>, page: int, limit: int): (r: Page<R>)
    ensures r.docs == result.docs
    ensures result.docs != [] ==> r == result
    ensures result.docs == [] ==> r.totalDocs == 0 && r.totalPages == 0 && r.page == page && r.limit == limit
    ensures result.docs == [] ==> !r.hasNextPage && !r.hasPrevPage && r.nextPage.None? && r.prevPage.None?
  {
    if result.docs == [] then EmptyPage(page, limit) else result
  }

  /** However many documents the paginator claims in total (a page past the end reports a
      non-zero `totalDocs`), an empty page is answered with the zero envelope echoing the
      requested page and limit. */
  lemma EmptyPagePastTheEnd<R>(result: Page<R>, page: int, limit: int)
    requires result.docs == [] && result.totalDocs > 0
    ensures OrEmptyPage(result, page, limit) != result
    ensures OrEmptyPage(result, page, limit) == EmptyPage(page, limit)
  {
  }

  // ---------------------------------------------------------------------------
  // `$sort`

  /** A field value as `$sort` sees it, in BSON comparison order: a missing field sorts
      like null, before numbers, strings, embedded objects, ObjectIds, booleans and dates. */
  datatype SortKey = Absent | Num(n: int) | Text(s: string) | Object | Oid(hex: string) | Flag(b: bool) | Date(t: Time)

  function Rank(k: SortKey): nat {
    match k
    case Absent => 0
    case Num(_) => 1
    case Text(_) => 2
    case Object => 3
    case Oid(_) => 4
    case Flag(_) => 5
    case Date(_) => 6
  }

  /** Binary (code point) string order: the lexicographic order on characters. */
  predicate StrLe(a: string, b: string) {
    a == [] || (b != [] && (a[0] < b[0] || (a[0] == b[0] && StrLe(a[1..], b[1..]))))
  }

  lemma {:induction false} StrLeTotal(a: string, b: string)
    ensures StrLe(a, b) || StrLe(b, a)
  {
    if a != [] && b != [] && a[0] == b[0] {
      StrLeTotal(a[1..], b[1..]);
    }
  }

  lemma {:induction false} StrLeTrans(a: string, b: string, c: string)
    requires StrLe(a, b) && StrLe(b, c)
    ensures StrLe(a, c)
  {
    if a != [] && b != [] && c != [] && a[0] == b[0] && b[0] == c[0] {
      StrLeTrans(a[1..], b[1..], c[1..]);
    }
  }

  /** `a` may come before `b` in ascending order. */
  predicate KeyLe(a: SortKey, b: SortKey) {
    if Rank(a) != Rank(b) then Rank(a) < Rank(b)
    else match (a, b)
      case (Num(x), Num(y)) => x <= y
      case (Text(x), Text(y)) => StrLe(x, y)
      case (Oid(x), Oid(y)) => StrLe(x, y)
      case (Flag(x), Flag(y)) => !x || y
      case (Date(x), Date(y)) => x <= y
      case _ => true
  }

  lemma KeyLeTotal(a: SortKey, b: SortKey)
    ensures KeyLe(a, b) || KeyLe(b, a)
  {
    match (a, b)
    case (Text(x), Text(y)) => StrLeTotal(x, y);
    case (Oid(x), Oid(y)) => StrLeTotal(x, y);
    case _ =>
  }

  lemma KeyLeTrans(a: SortKey, b: SortKey, c: SortKey)
    requires KeyLe(a, b) && KeyLe(b, c)
    ensures KeyLe(a, c)
  {
    if Rank(a) == Rank(b) == Rank(c) {
      match (a, b, c)
      case (Text(x), Text(y), Text(z)) => StrLeTrans(x, y, z);
      case (Oid(x), Oid(y), Oid(z)) => StrLeTrans(x, y, z);
      case _ =>
    }
  }

  /** `$sort: {field: 1}` puts `a` no later than `b` when `KeyLe(a, b)`; `-1` reverses it. */
  predicate InOrder(a: SortKey, b: SortKey, asc: bool) {
    if asc then KeyLe(a, b) else KeyLe(b, a)
  }

  predicate SortedBy<R>(s: seq<R>, key: R -> SortKey, asc: bool) {
    forall i, j :: 0 <= i < j < |s| ==> InOrder(key(s[i]), key(s[j]), asc)
  }

  function Insert<R>(x: R, s: seq<R>, key: R -> SortKey, asc: bool): (r: seq<R>)
    ensures |r| == |s| + 1
  {
    if s == [] || InOrder(key(x), key(s[0]), asc) then [x] + s
    else [s[0]] + Insert(x, s[1..], key, asc)
  }

  /** The `$sort` stage. MongoDB does not promise an order among equal keys; the model
      keeps their pipeline order. */
  function SortRows<R>(s: seq<R>, key: R -> SortKey, asc: bool): (r: seq<R>)
    ensures |r| == |s|
  {
    if s == [] then [] else Insert(s[0], SortRows(s[1..], key, asc), key, asc)
  }

  lemma InOrderTotal(a: SortKey, b: SortKey, asc: bool)
    ensures InOrder(a, b, asc) || InOrder(b, a, asc)
  {
    KeyLeTotal(a, b);
  }

  lemma InOrderTrans(a: SortKey, b: SortKey, c: SortKey, asc: bool)
    requires InOrder(a, b, asc) && InOrder(b, c, asc)
    ensures InOrder(a, c, asc)
  {
    if asc { KeyLeTrans(a, b, c); } else { KeyLeTrans(c, b, a); }
  }

  lemma {:induction false} InsertMultiset<R>(x: R, s: seq<R>, key: R -> SortKey, asc: bool)
    ensures multiset(Insert(x, s, key, asc)) == multiset(s) + multiset{x}
  {
    if s != [] && !InOrder(key(x), key(s[0]), asc) {
      InsertMultiset(x, s[1..], key, asc);
      assert s == [s[0]] + s[1..];
    }
  }

  /** A key that precedes `x` and every element of `s` precedes every element after the
      insertion. */
  lemma {:induction false} InsertBound<R>(b: SortKey, x: R, s: seq<R>, key: R -> SortKey, asc: bool)
    requires InOrder(b, key(x), asc)
    requires forall k :: 0 <= k < |s| ==> InOrder(b, key(s[k]), asc)
    ensures forall k :: 0 <= k < |s| + 1 ==> InOrder(b, key(Insert(x, s, key, asc)[k]), asc)
  {
    if s != [] && !InOrder(key(x), key(s[0]), asc) {
      InsertBound(b, x, s[1..], key, asc);
    }
  }

  lemma {:induction false} InsertSorted<R>(x: R, s: seq<R>, key: R -> SortKey, asc: bool)
    requires SortedBy(s, key, asc)
    ensures SortedBy(Insert(x, s, key, asc), key, asc)
  {
    if s == [] {
    } else if InOrder(key(x), key(s[0]), asc) {
      var r := [x] + s;
      forall i, j | 0 <= i < j < |r| ensures InOrder(key(r[i]), key(r[j]), asc) {
        if i == 0 && j > 1 { InOrderTrans(key(x), key(s[0]), key(s[j - 1]), asc); }
      }
    } else {
      var tail := s[1..];
      InsertSorted(x, tail, key, asc);
      InOrderTotal(key(x), key(s[0]), asc);
      InsertBound(key(s[0]), x, tail, key, asc);
    }
  }

  /** The sorted rows are in the requested order and are a permutation of the input. */
  lemma {:induction false} SortRowsSpec<R>(s: seq<R>, key: R -> SortKey, asc: bool)
    ensures SortedBy(SortRows(s, key, asc), key, asc)
    ensures multiset(SortRows(s, key, asc)) == multiset(s)
  {
    if s != [] {
      SortRowsSpec(s[1..], key, asc);
      InsertSorted(s[0], SortRows(s[1..], key, asc), key, asc);
      InsertMultiset(s[0], SortRows(s[1..], key, asc), key, asc);
      assert s == [s[0]] + s[1..];
    }
  }

  // ---------------------------------------------------------------------------
  // What a list handler answers

  /** A list handler's answer: the paginator's page over some ordering of exactly `rows`
      that is sorted on the requested key, with the zero envelope when that page is
      empty. */
  ghost predicate ListsRows<R(!new)>(result: Page<R>, rows: seq<R>, key: R -> SortKey, q: ListQuery,
                               paginate: Paginator<R>)
  {
    exists s :: SortedBy(s, key, Ascending(q)) && multiset(s) == multiset(rows)
      && result == OrEmptyPage(paginate(s, PageNumber(q), LimitNumber(q)), PageNumber(q), LimitNumber(q))
  }

  /** Sorting the rows and paging them is such an answer. */
  lemma SortedPageListsRows<R(!new)>(rows: seq<R>, key: R -> SortKey, q: ListQuery, paginate: Paginator<R>)
    ensures ListsRows(OrEmptyPage(paginate(SortRows(rows, key, Ascending(q)), PageNumber(q), LimitNumber(q)),
                                  PageNumber(q), LimitNumber(q)), rows, key, q, paginate)
  {
    SortRowsSpec(rows, key, Ascending(q));
  }

  /** The same without the envelope: the paginator's page itself, empty or not. */
  ghost predicate PagesRows<R(!new)>(result: Page<R>, rows: seq<R>, key: R -> SortKey, q: ListQuery,
                                     paginate: Paginator<R>)
  {
    exists s :: SortedBy(s, key, Ascending(q)) && multiset(s) == multiset(rows)
      && result == paginate(s, PageNumber(q), LimitNumber(q))
  }

  lemma SortedPagePagesRows<R(!new)>(rows: seq<R>, key: R -> SortKey, q: ListQuery, paginate: Paginator<R>)
    ensures PagesRows(paginate(SortRows(rows, key, Ascending(q)), PageNumber(q), LimitNumber(q)), rows, key, q, paginate)
  {
    SortRowsSpec(rows, key, Ascending(q));
  }
}
