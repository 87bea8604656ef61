/**
 * The arithmetic of `UsuarioAllView.get` (users/views.py:196-237): reading the
 * `page` and `offset` query parameters, the page count, and the slice of the
 * id-ordered users a page holds.
 */
module Pagination {
  import opened Wrappers

  /**
   * A query parameter as `int(request.query_params.get(name, default))` sees
   * it: absent, a string `int` accepts (its value), or one `int` rejects.
   */
  datatype Param = Absent | Given(n: int) | NotInteger

  const DefaultPage := 1
  const DefaultOffset := 10

  /** Why a listing is refused: a parameter is not an integer, or it is below 1. */
  datatype PageError = NotIntegers | NotPositive

  /** One page of a listing and its metadata. */
  datatype Page<T> = Page(count: nat, page: nat, offset: nat, pages: nat, results: seq<T>)

  /** The value of a parameter: the default when absent, nothing when `int` raises. */
  function ParamValue(p: Param, default: int): Option<int>
  {
    match p
    case Absent => Some(default)
    case Given(n) => Some(n)
    case NotInteger => None
  }

  function Min(a: nat, b: nat): nat
  {
    if a <= b then a else b
  }

  /** Distributivity for the page arithmetic, stated once so the solver need not search for it. */
  lemma MulSucc(k: nat, size: nat)
    ensures (k + 1) * size == k * size + size
  {
  }

  lemma MulMonotone(a: nat, b: nat, size: nat)
    requires a <= b
    ensures a * size <= b * size
  {
  }

  /**
   * `ceil(total_items / offset)` in integers: the least number of pages of
   * `size` items that hold `total` items.
   */
  function CeilDiv(total: nat, size: nat): (n: nat)
    requires size >= 1
    ensures n * size >= total
    ensures n == 0 || (n - 1) * size < total
  {
    var q := (total + size - 1) / size;
    var r := (total + size - 1) % size;
    assert total + size - 1 == q * size + r && 0 <= r < size;
    if q > 0 then MulSucc(q - 1, size); q else q
  }

  /** CeilDiv is the least page count that holds every item. */
  lemma CeilDivLeast(total: nat, size: nat, m: nat)
    requires size >= 1 && m * size >= total
    ensures CeilDiv(total, size) <= m
  {
    var n := CeilDiv(total, size);
    if n > m {
      MulMonotone(m, n - 1, size);
    }
  }

  /**
   * The users of page `page` (counted from 1) with `offset` users per page:
   * `usuarios[start:end]` with start = (page-1)*offset and end = start+offset,
   * cut short at the end of the table as slicing does.
   */
  function PageSlice<T>(items: seq<T>, page: nat, offset: nat): (s: seq<T>)
    requires page >= 1
    ensures |s| <= offset
  {
    var start := (page - 1) * offset;
    var end := start + offset;
    if start >= |items| then []
    else if end >= |items| then items[start..]
    else items[start..end]
  }

  /** The listing of users/views.py:208-237 before serialisation. */
  function Paginate<T>(items: seq<T>, page: Param, offset: Param): (r: Result<Page<T>, PageError>)
    ensures r.Failure? <==>
      ParamValue(page, DefaultPage).None? || ParamValue(offset, DefaultOffset).None? ||
      ParamValue(page, DefaultPage).value < 1 || ParamValue(offset, DefaultOffset).value < 1
    ensures r.Failure? ==>
      (r.error == NotIntegers <==> ParamValue(page, DefaultPage).None? || ParamValue(offset, DefaultOffset).None?)
    ensures r.Success? ==>
      r.value.page == ParamValue(page, DefaultPage).value && r.value.offset == ParamValue(offset, DefaultOffset).value &&
      r.value.page >= 1 && r.value.offset >= 1 && r.value.count == |items| &&
      r.value.pages * r.value.offset >= |items| && (r.value.pages == 0 || (r.value.pages - 1) * r.value.offset < |items|)
    ensures r.Success? ==> |r.value.results| <= r.value.offset
  {
    match (ParamValue(page, DefaultPage), ParamValue(offset, DefaultOffset))
    case (Some(p), Some(o)) =>
      if p < 1 || o < 1 then Failure(NotPositive)
      else Success(Page(|items|, p, o, CeilDiv(|items|, o), PageSlice(items, p, o)))
    case _ => Failure(NotIntegers)
  }

  /**
   * The users of a page are exactly those at positions (page-1)*offset up to
   * (but not including) page*offset, as far as the table reaches.
   */
  lemma PageSliceElements<T>(items: seq<T>, page: nat, offset: nat)
    requires page >= 1
    ensures var start := (page - 1) * offset;
      |PageSlice(items, page, offset)| == (if start >= |items| then 0 else Min(offset, |items| - start))
    ensures forall k :: 0 <= k < |PageSlice(items, page, offset)| ==>
      (page - 1) * offset + k < |items| && PageSlice(items, page, offset)[k] == items[(page - 1) * offset + k]
  {
  }

  /**
   * A page holds users exactly when it is one of pages 1..pages; a page past the
   * last is empty (and is still a successful listing).
   */
  lemma PageNonEmptyIff<T>(items: seq<T>, page: nat, offset: nat)
    requires page >= 1 && offset >= 1
    ensures PageSlice(items, page, offset) != [] <==> page <= CeilDiv(|items|, offset)
  {
    var n := CeilDiv(|items|, offset);
    if page <= n {
      MulMonotone(page - 1, n - 1, offset);
    } else {
      MulMonotone(n, page - 1, offset);
    }
  }

  /** Five users, three per page: pages of 3 and 2 users, and a third page that is empty. */
  lemma FiveUsersThreePerPage<T>(items: seq<T>)
    requires |items| == 5
    ensures CeilDiv(|items|, 3) == 2
    ensures |PageSlice(items, 1, 3)| == 3 && |PageSlice(items, 2, 3)| == 2 && PageSlice(items, 3, 3) == []
  {
  }

  /** Position `i` of a table of `total` users is listed on page `page`. */
  ghost predicate OnPage(total: nat, page: nat, offset: nat, i: nat)
    requires page >= 1
  {
    (page - 1) * offset <= i < page * offset && i < total
  }

  /** Every position of the table is listed on one page, and on that page only: page i / offset + 1. */
  lemma OnPageIff(total: nat, page: nat, offset: nat, i: nat)
    requires page >= 1 && offset >= 1 && i < total
    ensures OnPage(total, page, offset, i) <==> page == i / offset + 1
  {
    var q := i / offset;
    assert i == q * offset + i % offset;
    MulSucc(q, offset);
    MulSucc(page - 1, offset);
    if page - 1 < q {
      MulMonotone(page, q, offset);
    } else if page - 1 > q {
      MulMonotone(q + 1, page - 1, offset);
    }
  }

  /** Two different pages never share a user. */
  lemma PagesDisjoint(total: nat, p: nat, q: nat, offset: nat)
    requires p >= 1 && q >= 1 && p != q
    ensures forall i: nat :: !(OnPage(total, p, offset, i) && OnPage(total, q, offset, i))
  {
    forall i: nat | OnPage(total, p, offset, i) ensures !OnPage(total, q, offset, i) {
      if offset >= 1 {
        OnPageIff(total, p, offset, i);
        OnPageIff(total, q, offset, i);
      }
    }
  }

  /** Pages 1..k read one after the other. */
  function PagesUpTo<T>(items: seq<T>, offset: nat, k: nat): seq<T>
  {
    if k == 0 then [] else PagesUpTo(items, offset, k - 1) + PageSlice(items, k, offset)
  }

  /** Reading pages 1..k gives the first k*offset users of the table. */
  lemma {:induction false} PagesUpToPrefix<T>(items: seq<T>, offset: nat, k: nat)
    ensures PagesUpTo(items, offset, k) == items[..Min(k * offset, |items|)]
  {
    if k > 0 {
      PagesUpToPrefix(items, offset, k - 1);
      MulSucc(k - 1, offset);
      MulMonotone(k - 1, k, offset);
    }
  }

  /**
   * Pages 1..pages, read in order, are the whole id-ordered table: every user is
   * listed, once, on exactly one page.
   */
  lemma PagesCoverAll<T>(items: seq<T>, offset: nat)
    requires offset >= 1
    ensures PagesUpTo(items, offset, CeilDiv(|items|, offset)) == items
  {
    PagesUpToPrefix(items, offset, CeilDiv(|items|, offset));
  }
}
