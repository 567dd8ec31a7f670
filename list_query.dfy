/**
 * The list query shared by every `getList`: normalise `items_per_page`, `page` and `search`,
 * filter by substring over an entity's designated text fields, order, take one page, and
 * count the same filter separately.
 */
module ListQuery {
  import opened Common
  import opened Tables
  import opened Text
  import opened Ordering

  /** What `Number(x)` makes of a raw query value: `undefined`, `NaN`, or an integer. */
  datatype NumInput = Absent | NotANumber | Int(n: int)

  /** The filter DTO of every list endpoint: all three fields are optional. */
  datatype ListFilter = ListFilter(items_per_page: NumInput, page: NumInput, search: Option<string>)

  /** The pagination envelope `{ data, total, current_page, items_per_page }`. */
  datatype Page<T> = Page(data: seq<T>, total: nat, current_page: int, items_per_page: int)

  const DefaultItemsPerPage: int := 10
  const DefaultPage: int := 1

  /** `Number(x) || d`: a falsy number (`NaN` from a missing or non-numeric value, or `0`) gives `d`. */
  function OrDefault(x: NumInput, d: int): (r: int)
    ensures x.Int? && x.n != 0 ==> r == x.n
    ensures !(x.Int? && x.n != 0) ==> r == d
  {
    match x
    case Int(n) => if n != 0 then n else d
    case _ => d
  }

  /** `Number(items_per_page) || 10`: never zero, and below one only for a negative input. */
  function ItemsPerPage(f: ListFilter): (r: int)
    ensures r != 0
    ensures r < 1 <==> f.items_per_page.Int? && f.items_per_page.n < 0
    ensures f.items_per_page.Int? && f.items_per_page.n > 0 ==> r == f.items_per_page.n
  {
    OrDefault(f.items_per_page, DefaultItemsPerPage)
  }

  /** `Number(page) || 1`: never zero, and below one only for a negative input. */
  function CurrentPage(f: ListFilter): (r: int)
    ensures r != 0
    ensures r < 1 <==> f.page.Int? && f.page.n < 0
    ensures f.page.Int? && f.page.n > 0 ==> r == f.page.n
  {
    OrDefault(f.page, DefaultPage)
  }

  /** `search || ''`: the sent search, or the empty string that every text contains. */
  function Search(f: ListFilter): (r: string)
    ensures f.search.Some? ==> r == f.search.value
    ensures f.search.None? ==> forall hay: string :: Contains(hay, r)
  {
    f.search.GetOr("")
  }

  /** The normalised page and page size are positive, so the offset is never negative. */
  predicate Pageable(f: ListFilter) {
    CurrentPage(f) >= 1 && ItemsPerPage(f) >= 1
  }

  /** A normalised value is positive exactly when the input was absent, non-numeric, zero or positive. */
  lemma PageableIff(f: ListFilter)
    ensures Pageable(f) <==>
      (!f.page.Int? || f.page.n >= 0) && (!f.items_per_page.Int? || f.items_per_page.n >= 0)
  {
  }

  /** `skip = (page - 1) * items_per_page`. */
  function Skip(f: ListFilter): (r: nat)
    requires Pageable(f)
    ensures r == 0 <==> CurrentPage(f) == 1
    ensures r >= CurrentPage(f) - 1
  {
    ScaledAtLeast(CurrentPage(f) - 1, ItemsPerPage(f));
    (CurrentPage(f) - 1) * ItemsPerPage(f)
  }

  /** Scaling a count by a page size of at least one never makes it smaller. */
  lemma {:induction false} ScaledAtLeast(a: nat, n: int)
    requires n >= 1
    ensures a * n >= a
  {
    if a > 0 {
      ScaledAtLeast(a - 1, n);
      assert a * n == (a - 1) * n + n;
    }
  }

  function Min(a: int, b: int): int {
    if a <= b then a else b
  }

  /** `findMany({ skip, take })` over an already ordered sequence: at most `take` rows from offset `skip`. */
  function Slice<T>(s: seq<T>, skip: nat, take: nat): (r: seq<T>)
    ensures |r| <= take
    ensures |r| == if skip >= |s| then 0 else Min(take, |s| - skip)
    ensures forall i :: 0 <= i < |r| ==> r[i] == s[skip + i]
  {
    if skip >= |s| then [] else s[skip..Min(skip + take, |s|)]
  }

  /** The OR filter: `search` occurs in at least one of the designated text fields. */
  predicate MatchesAny(fields: seq<string>, search: string) {
    exists i :: 0 <= i < |fields| && Contains(fields[i], search)
  }

  /** The `where` clause as a predicate on rows. */
  function Selector<T>(fields: T -> seq<string>, search: string): T -> bool {
    (r: T) => MatchesAny(fields(r), search)
  }

  /** The rows the `where` clause selects, in table order. */
  function Matching<T>(rows: seq<T>, fields: T -> seq<string>, search: string): seq<T> {
    Filter(rows, Selector(fields, search))
  }

  /** A row is selected iff it is in the table and the search occurs in one of its fields. */
  lemma MatchingIff<T>(rows: seq<T>, fields: T -> seq<string>, search: string, x: T)
    ensures x in Matching(rows, fields, search) <==> x in rows && MatchesAny(fields(x), search)
  {
    if x in rows && MatchesAny(fields(x), search) {
      var i :| 0 <= i < |rows| && rows[i] == x;
    }
  }

  /** The selected rows, ordered by descending key (what `findMany` pages through). */
  function Ordered<T>(rows: seq<T>, fields: T -> seq<string>, key: T -> int, search: string): seq<T> {
    SortDesc(Matching(rows, fields, search), key)
  }

  /** The list query: one page of the ordered matching rows, plus the count of all matching rows. */
  function Resolve<T>(rows: seq<T>, fields: T -> seq<string>, key: T -> int, f: ListFilter): (p: Page<T>)
    requires Pageable(f)
    ensures p.current_page == CurrentPage(f) && p.items_per_page == ItemsPerPage(f)
    ensures |p.data| <= p.items_per_page
    ensures p.total == |Matching(rows, fields, Search(f))|
    ensures forall i :: 0 <= i < |p.data| ==> p.data[i] in rows && MatchesAny(fields(p.data[i]), Search(f))
    ensures SortedDesc(p.data, key)
  {
    var matching := Matching(rows, fields, Search(f));
    var ordered := SortDesc(matching, key);
    var data := Slice(ordered, Skip(f), ItemsPerPage(f));
    forall i | 0 <= i < |data| ensures data[i] in rows && MatchesAny(fields(data[i]), Search(f)) {
      assert data[i] == ordered[Skip(f) + i];
      SortDescSameRows(matching, key, data[i]);
      MatchingIff(rows, fields, Search(f), data[i]);
    }
    forall i, j | 0 <= i < j < |data| ensures key(data[i]) >= key(data[j]) {
      assert data[i] == ordered[Skip(f) + i] && data[j] == ordered[Skip(f) + j];
    }
    Page(data, |matching|, CurrentPage(f), ItemsPerPage(f))
  }

  /** `data` is exactly the window [skip, skip + items_per_page) of the ordered matching rows. */
  lemma ResolveWindow<T>(rows: seq<T>, fields: T -> seq<string>, key: T -> int, f: ListFilter)
    requires Pageable(f)
    ensures var p := Resolve(rows, fields, key, f);
      var ordered := Ordered(rows, fields, key, Search(f));
      && |ordered| == p.total
      && |p.data| == (if Skip(f) >= p.total then 0 else Min(p.items_per_page, p.total - Skip(f)))
      && forall i :: 0 <= i < |p.data| ==> p.data[i] == ordered[Skip(f) + i]
  {
  }

  /** `total` depends only on the search, never on the page or the page size. */
  lemma TotalIgnoresPaging<T>(rows: seq<T>, fields: T -> seq<string>, key: T -> int, f: ListFilter, g: ListFilter)
    requires Pageable(f) && Pageable(g)
    requires Search(f) == Search(g)
    ensures Resolve(rows, fields, key, f).total == Resolve(rows, fields, key, g).total
  {
  }

  /** An empty filter object behaves exactly like `{ page: 1, items_per_page: 10, search: '' }`. */
  lemma EmptyFilterIsDefault<T>(rows: seq<T>, fields: T -> seq<string>, key: T -> int)
    ensures var e := ListFilter(Absent, Absent, None);
      Pageable(e) && Resolve(rows, fields, key, e) == Resolve(rows, fields, key, ListFilter(Int(10), Int(1), Some("")))
    ensures var p := Resolve(rows, fields, key, ListFilter(Absent, Absent, None));
      p.current_page == 1 && p.items_per_page == 10
  {
  }

  /** An empty search selects every row that has at least one designated field. */
  lemma EmptySearchMatchesAll<T>(rows: seq<T>, fields: T -> seq<string>)
    requires forall i :: 0 <= i < |rows| ==> |fields(rows[i])| >= 1
    ensures Matching(rows, fields, "") == rows
  {
    forall i | 0 <= i < |rows| ensures MatchesAny(fields(rows[i]), "") {
      EmptyContained(fields(rows[i])[0]);
    }
    FilterAll(rows, Selector(fields, ""));
  }

  /** A page past the last one is empty, and `total` still counts every matching row. */
  lemma PastLastPageEmpty<T>(rows: seq<T>, fields: T -> seq<string>, key: T -> int, f: ListFilter)
    requires Pageable(f)
    requires Skip(f) >= |Matching(rows, fields, Search(f))|
    ensures Resolve(rows, fields, key, f).data == []
    ensures Resolve(rows, fields, key, f).total == |Matching(rows, fields, Search(f))|
  {
  }

  /** Six matching rows, four per page: the second page holds the fifth and sixth. */
  lemma SecondPageOfSix<T>(rows: seq<T>, fields: T -> seq<string>, key: T -> int, search: string)
    requires |Matching(rows, fields, search)| == 6
    ensures var p := Resolve(rows, fields, key, ListFilter(Int(4), Int(2), Some(search)));
      && p.data == Ordered(rows, fields, key, search)[4..6]
      && p.total == 6 && p.current_page == 2 && p.items_per_page == 4
  {
    var f := ListFilter(Int(4), Int(2), Some(search));
    ResolveWindow(rows, fields, key, f);
  }

  /** Euclidean division: `k` is `k / n` whole pages of `n` plus `k % n`, which is less than `n`. */
  lemma DivMod(k: nat, n: int)
    requires n >= 1
    ensures (k / n) * n + k % n == k && 0 <= k % n < n
  {
  }

  /** Paging through covers every matching row: the k-th ordered row is row k % n on page k / n + 1. */
  lemma {:induction false} RowOnItsPage<T>(rows: seq<T>, fields: T -> seq<string>, key: T -> int,
                                           search: string, n: int, k: nat)
    requires n >= 1
    requires k < |Matching(rows, fields, search)|
    ensures var f := ListFilter(Int(n), Int(k / n + 1), Some(search));
      && Pageable(f)
      && k % n < |Resolve(rows, fields, key, f).data|
      && Resolve(rows, fields, key, f).data[k % n] == Ordered(rows, fields, key, search)[k]
  {
    var q, m := k / n, k % n;
    var f := ListFilter(Int(n), Int(q + 1), Some(search));
    DivMod(k, n);
    assert CurrentPage(f) == q + 1 && ItemsPerPage(f) == n && Search(f) == search;
    assert Skip(f) + m == k;
    ResolveWindow(rows, fields, key, f);
  }
}
