/**
 * The paging and sorting envelope `ApiResult<T>`: one page of a query,
 * optionally sorted by a column named by the client, together with what the
 * client needs to navigate to the other pages.
 */
module Paging {
  import opened Wrappers
  import opened Casing
  import opened Int32
  import opened Fields
  import opened Ordering

  /** The `NotSupportedException` raised for a column name that is not a property. */
  datatype Error = NotSupported(propertyName: string)

  /**
   * `ApiResult<T>`. Every property is assigned once, by the private
   * constructor (`NewApiResult`), and only read afterwards.
   */
  datatype ApiResult<T> = ApiResult(
    data: seq<T>,
    pageIndex: int32,
    pageSize: int32,
    sortColumn: Option<string>,
    sortOrder: Option<string>,
    totalCount: int32,
    totalPages: int32)
  {
    predicate HasPreviousPage() {
      pageIndex > 0
    }

    /** `PageIndex + 1` is an unchecked `int` addition. */
    predicate HasNextPage() {
      Wrap(pageIndex + 1) < totalPages
    }
  }

  function Min(a: int, b: int): int {
    if a <= b then a else b
  }

  function Max(a: int, b: int): int {
    if a <= b then b else a
  }

  /** The smallest number of pages of size `d` that hold `n` items. */
  function CeilDiv(n: nat, d: nat): (q: nat)
    requires d > 0
    ensures q * d >= n
    ensures q == 0 || (q - 1) * d < n
    ensures q <= n
  {
    CeilingBounds(n, d, (n + d - 1) / d);
    (n + d - 1) / d
  }

  lemma CeilingBounds(n: nat, d: nat, q: int)
    requires d > 0 && q == (n + d - 1) / d
    ensures q >= 0 && q * d >= n
    ensures q == 0 || (q - 1) * d < n
    ensures q <= n
  {
    var m := n + d - 1;
    DivisionFacts(m, d);
    assert q >= 0;
    if q > 0 {
      SubtractOnce(q, d);
      if q > 1 { MulMonotone(1, d, q - 1); }
    }
  }

  lemma SubtractOnce(q: int, d: int)
    ensures (q - 1) * d == q * d - d
  {
  }

  lemma DivisionFacts(m: nat, d: nat)
    requires d > 0
    ensures m - d < (m / d) * d <= m
  {
    assert m == (m / d) * d + m % d;
  }

  /**
   * The private constructor. `TotalPages` is the ceiling of
   * `totalCount / pageSize`; for counts and sizes within the range of `int`
   * the floating-point division and `Math.Ceiling` of the source compute it
   * exactly.
   */
  function NewApiResult<T>(data: seq<T>, totalCount: int32, pageIndex: int32, pageSize: int32,
                           sortColumn: Option<string>, sortOrder: Option<string>): (r: ApiResult<T>)
    requires totalCount >= 0 && pageSize > 0
    ensures r.data == data && r.totalCount == totalCount
    ensures r.pageIndex == pageIndex && r.pageSize == pageSize
    ensures r.sortColumn == sortColumn && r.sortOrder == sortOrder
    ensures Constructed(r)
  {
    ApiResult(data, pageIndex, pageSize, sortColumn, sortOrder, totalCount, CeilDiv(totalCount, pageSize))
  }

  /** An envelope whose `TotalPages` is the ceiling of its count over its page size. */
  predicate Constructed<T>(r: ApiResult<T>) {
    r.totalCount >= 0 && r.pageSize > 0 &&
    r.totalPages * r.pageSize >= r.totalCount &&
    (r.totalPages == 0 || (r.totalPages - 1) * r.pageSize < r.totalCount)
  }

  lemma MulMonotone(a: int, b: int, n: int)
    requires a <= b && n > 0
    ensures a * n <= b * n
  {
    assert b * n - a * n == (b - a) * n;
  }

  /**
   * `HasNextPage` holds exactly when the page after this one starts before
   * the end of the data; in particular it is false for an empty source and
   * any page index from zero up. The one exception is the last `int`.
   */
  lemma HasNextPageIffMoreData<T>(r: ApiResult<T>)
    requires Constructed(r)
    requires r.pageIndex < MaxValue
    ensures r.HasNextPage() <==> (r.pageIndex + 1) * r.pageSize < r.totalCount
    ensures r.totalCount == 0 ==> r.totalPages == 0
    ensures r.totalCount == 0 && r.pageIndex >= 0 ==> !r.HasNextPage()
  {
    var p, t, n, c := r.pageIndex + 1, r.totalPages as int, r.pageSize as int, r.totalCount as int;
    assert Wrap(p) == p;
    assert r.HasNextPage() <==> p < t;
    BeforeCeiling(p, t, n, c);
    BeforeCeiling(0, t, n, c);
  }

  /** A page number lies below the page count exactly when that page starts before the end. */
  lemma BeforeCeiling(p: int, t: int, n: int, c: int)
    requires n > 0 && c >= 0 && t >= 0
    requires t * n >= c && (t == 0 || (t - 1) * n < c)
    ensures p < t <==> p * n < c
  {
    if p < t {
      MulMonotone(p, t - 1, n);
    } else {
      MulMonotone(t, p, n);
    }
  }

  /**
   * At `PageIndex == int.MaxValue` the addition wraps around to
   * `int.MinValue`, so `HasNextPage` holds whatever the data.
   */
  lemma HasNextPageAtLastIndex<T>(r: ApiResult<T>)
    requires Constructed(r)
    requires r.pageIndex == MaxValue
    ensures r.HasNextPage()
  {
    assert Wrap(MaxValue + 1) == MinValue;
  }

  /**
   * `HasPreviousPage` holds exactly when the page does not start at the
   * first item, for every page index whose offset does not overflow.
   */
  lemma HasPreviousPageIffOffset<T>(r: ApiResult<T>)
    requires Constructed(r)
    requires 0 <= r.pageIndex * r.pageSize <= MaxValue
    ensures r.HasPreviousPage() <==> PageOffset(r.pageIndex, r.pageSize) > 0
  {
    if r.pageIndex < 0 {
      MulMonotone(r.pageIndex, -1, r.pageSize);
    }
    if r.pageIndex > 0 {
      MulMonotone(1, r.pageIndex, r.pageSize);
    }
  }

  /** `Queryable.Skip`: a count of zero or less skips nothing. */
  function Skip<T>(s: seq<T>, count: int): seq<T> {
    if count <= 0 then s else if count >= |s| then [] else s[count..]
  }

  /** `Queryable.Take`: a count of zero or less takes nothing. */
  function Take<T>(s: seq<T>, count: int): seq<T> {
    if count <= 0 then [] else if count >= |s| then s else s[..count]
  }

  /** `pageIndex * pageSize`, an unchecked `int` multiplication. */
  function PageOffset(pageIndex: int32, pageSize: int32): int32 {
    Wrap(pageIndex * pageSize)
  }

  /**
   * Skipping `offset` items and taking `size` yields the contiguous slice
   * that starts at `offset`, of length `min(size, max(0, count - offset))`.
   */
  lemma PageIsSlice<T>(s: seq<T>, offset: int, size: int)
    requires offset >= 0 && size > 0
    ensures Take(Skip(s, offset), size) == s[Min(offset, |s|)..Min(offset + size, |s|)]
    ensures |Take(Skip(s, offset), size)| == Min(size, Max(0, |s| - offset))
  {
  }

  /**
   * When `pageIndex * pageSize` overflows to a negative offset the query
   * skips nothing: page 65536 of size 32768 serves the first page.
   */
  lemma OverflowServesFirstPage<T>(s: seq<T>)
    ensures PageOffset(0x1_0000, 0x8000) == MinValue
    ensures Take(Skip(s, PageOffset(0x1_0000, 0x8000)), 0x8000) == s[..Min(0x8000, |s|)]
  {
    assert Wrap(0x1_0000 * 0x8000) == MinValue;
  }

  /**
   * `IsValidProperty`: whether `propertyName` names a public instance
   * property of `T`, ignoring case; a name that does not raises
   * `NotSupportedException` when `throwExceptionIfNotFound` is set.
   */
  function IsValidProperty<T>(properties: seq<Property<T>>, propertyName: string,
                              throwExceptionIfNotFound: bool): (r: Result<bool, Error>)
    ensures r.Failure? <==> (throwExceptionIfNotFound &&
      forall i :: 0 <= i < |properties| ==> !EqualsIgnoreCase(properties[i].name, propertyName))
    ensures r.Failure? ==> r.error == NotSupported(propertyName)
    ensures r.Success? ==> (r.value <==>
      exists i :: 0 <= i < |properties| && EqualsIgnoreCase(properties[i].name, propertyName))
  {
    var prop := FindProperty(properties, propertyName);
    if prop.None? && throwExceptionIfNotFound then Failure(NotSupported(propertyName))
    else Success(prop.Some?)
  }

  predicate IsNullOrEmpty(s: Option<string>) {
    s.None? || s.value == ""
  }

  /** The order applied with a sort: "ASC" when asked for ignoring case, otherwise "DESC". */
  function NormalizeSortOrder(sortOrder: Option<string>): (r: string)
    ensures r == "ASC" || r == "DESC"
    ensures r == "ASC" <==> sortOrder.Some? && EqualsIgnoreCase(sortOrder.value, "ASC")
  {
    if !IsNullOrEmpty(sortOrder) && EqualsIgnoreCase(sortOrder.value, "ASC") then "ASC" else "DESC"
  }

  /**
   * `CreateAsync`: counts the source, sorts it when a sort column is given
   * (failing on a column that is not a property), then serves the page
   * `pageIndex` of size `pageSize`.
   */
  method CreateAsync<T>(source: seq<T>, properties: seq<Property<T>>, pageIndex: int32, pageSize: int32,
                        sortColumn: Option<string>, sortOrder: Option<string>)
    returns (r: Result<ApiResult<T>, Error>)
    requires pageSize > 0
    requires |source| <= MaxValue
    ensures r.Failure? <==> !IsNullOrEmpty(sortColumn) && FindProperty(properties, sortColumn.value).None?
    ensures r.Failure? ==> r.error == NotSupported(sortColumn.value)
    ensures r.Success? ==> Constructed(r.value)
    ensures r.Success? ==> r.value.totalCount == |source|
    ensures r.Success? ==> r.value.pageIndex == pageIndex && r.value.pageSize == pageSize
    ensures r.Success? ==> r.value.sortColumn == sortColumn
    ensures r.Success? ==> |r.value.data| <= pageSize
    ensures r.Success? && 0 <= pageIndex * pageSize <= MaxValue ==>
      |r.value.data| == Min(pageSize, Max(0, |source| - pageIndex * pageSize))
    ensures r.Success? && IsNullOrEmpty(sortColumn) ==>
      r.value.sortOrder == sortOrder &&
      r.value.data == Take(Skip(source, PageOffset(pageIndex, pageSize)), pageSize)
    ensures r.Success? && IsNullOrEmpty(sortColumn) && 0 <= pageIndex * pageSize <= MaxValue ==>
      r.value.data == source[Min(pageIndex * pageSize, |source|)..Min(pageIndex * pageSize + pageSize, |source|)]
    ensures r.Success? && !IsNullOrEmpty(sortColumn) ==>
      var key := properties[FindProperty(properties, sortColumn.value).value].get;
      var order := NormalizeSortOrder(sortOrder);
      r.value.sortOrder == Some(order) &&
      r.value.data == Take(Skip(SortBy(source, key, order == "DESC"), PageOffset(pageIndex, pageSize)), pageSize) &&
      SortedBy(r.value.data, key, order == "DESC") &&
      multiset(r.value.data) <= multiset(source)
  {
    var count := |source|;
    var query := source;
    var order := sortOrder;
    if !IsNullOrEmpty(sortColumn) {
      var valid := IsValidProperty(properties, sortColumn.value, true);
      if valid.Failure? {
        return Failure(valid.error);
      }
      var column := FindProperty(properties, sortColumn.value).value;
      var normalized := NormalizeSortOrder(order);
      order := Some(normalized);
      query := SortBy(query, properties[column].get, normalized == "DESC");
      PageOfSorted(source, properties[column].get, normalized == "DESC", PageOffset(pageIndex, pageSize), pageSize);
    }
    var data := Take(Skip(query, PageOffset(pageIndex, pageSize)), pageSize);
    PageOfQuery(query, pageIndex, pageSize);
    r := Success(NewApiResult(data, count, pageIndex, pageSize, sortColumn, order));
  }

  /** The page `CreateAsync` serves: at most `pageSize` items, and for an offset that does not overflow, the slice there. */
  lemma PageOfQuery<T>(query: seq<T>, pageIndex: int32, pageSize: int32)
    requires pageSize > 0
    ensures var w := Take(Skip(query, PageOffset(pageIndex, pageSize)), pageSize);
      |w| <= pageSize &&
      (0 <= pageIndex * pageSize <= MaxValue ==>
         w == query[Min(pageIndex * pageSize, |query|)..Min(pageIndex * pageSize + pageSize, |query|)] &&
         |w| == Min(pageSize, Max(0, |query| - pageIndex * pageSize)))
  {
    PageAt(query, pageIndex * pageSize, pageSize);
  }

  lemma PageAt<T>(query: seq<T>, product: int, size: int)
    requires size > 0
    ensures var w := Take(Skip(query, Wrap(product)), size);
      |w| <= size &&
      (0 <= product <= MaxValue ==>
         w == query[Min(product, |query|)..Min(product + size, |query|)] &&
         |w| == Min(size, Max(0, |query| - product)))
  {
    if 0 <= product <= MaxValue {
      PageIsSlice(query, product, size);
    }
  }

  /** A page of the sorted source is sorted, draws on the source's items, and the sorted query is as long as the source. */
  lemma PageOfSorted<T>(source: seq<T>, key: T -> Value, descending: bool, offset: int, size: int)
    ensures var query := SortBy(source, key, descending);
      |query| == |source| &&
      SortedBy(Take(Skip(query, offset), size), key, descending) &&
      multiset(Take(Skip(query, offset), size)) <= multiset(source)
  {
    var query := SortBy(source, key, descending);
    SortByPermutes(source, key, descending);
    SortBySorted(source, key, descending);
    assert |query| == |multiset(query)|;
    WindowOfSorted(query, offset, size, key, descending);
  }

  /** Skipping and taking always leave a contiguous slice of the query. */
  lemma WindowIsSlice<T>(s: seq<T>, offset: int, size: int)
    ensures var lo := if offset <= 0 then 0 else Min(offset, |s|);
      lo + |Take(Skip(s, offset), size)| <= |s| &&
      Take(Skip(s, offset), size) == s[lo..lo + |Take(Skip(s, offset), size)|]
  {
  }

  /** A page is a piece of its query: it keeps the query's order and draws on its items. */
  lemma WindowOfSorted<T>(s: seq<T>, offset: int, size: int, key: T -> Value, descending: bool)
    ensures multiset(Take(Skip(s, offset), size)) <= multiset(s)
    ensures SortedBy(s, key, descending) ==> SortedBy(Take(Skip(s, offset), size), key, descending)
  {
    var w := Take(Skip(s, offset), size);
    WindowIsSlice(s, offset, size);
    var lo := if offset <= 0 then 0 else Min(offset, |s|);
    SliceFacts(s, lo, lo + |w|, key, descending);
  }

  lemma SliceFacts<T>(s: seq<T>, lo: int, hi: int, key: T -> Value, descending: bool)
    requires 0 <= lo <= hi <= |s|
    ensures multiset(s[lo..hi]) <= multiset(s)
    ensures SortedBy(s, key, descending) ==> SortedBy(s[lo..hi], key, descending)
  {
    assert s == s[..lo] + s[lo..hi] + s[hi..];
    assert multiset(s) == multiset(s[..lo]) + multiset(s[lo..hi]) + multiset(s[hi..]);
  }
}
