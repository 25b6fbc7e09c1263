/**
 * The list the gallery shows: the loaded items filtered by type and by a
 * case-insensitive name query, then ordered by the chosen sort key.
 * `timeOf` stands for `new Date(d).getTime()` on a non-empty date.
 */
module ItemView {
  import opened Wrappers
  import opened Text
  import opened Types

  /** The sort keys of the filter bar; `Unsorted` is any other key, whose comparator is 0. */
  datatype SortOption = NameAsc | NameDesc | DateDesc | DateAsc | Unsorted

  /** `'ALL'` or one media type. */
  datatype TypeFilter = All | Only(kind: MediaType)

  // ---------------------------------------------------------------------------
  // Comparators

  /** `localeCompare`, taken as the lexicographic order of character codes: -1, 0 or 1. */
  function CompareText(a: string, b: string): (c: int)
    ensures -1 <= c <= 1
  {
    if a == [] && b == [] then 0
    else if a == [] then -1
    else if b == [] then 1
    else if a[0] < b[0] then -1
    else if a[0] > b[0] then 1
    else CompareText(a[1..], b[1..])
  }

  /** Swapping the operands negates the comparison. */
  lemma {:induction false} CompareTextAntisymmetric(a: string, b: string)
    ensures CompareText(a, b) == -CompareText(b, a)
  {
    if a != [] && b != [] && a[0] == b[0] {
      CompareTextAntisymmetric(a[1..], b[1..]);
    }
  }

  /** Two names compare equal exactly when they are the same string. */
  lemma {:induction false} CompareTextZero(a: string, b: string)
    ensures CompareText(a, b) == 0 <==> a == b
  {
    if a != [] && b != [] && a[0] == b[0] {
      CompareTextZero(a[1..], b[1..]);
      if a[1..] == b[1..] {
        assert a == [a[0]] + a[1..] && b == [b[0]] + b[1..];
      }
    }
  }

  /** A missing or empty date sorts as time 0. */
  function DateValue(d: Option<string>, timeOf: string -> int): (t: int)
    ensures d.None? || d == Some("") ==> t == 0
    ensures d.Some? && d.value != "" ==> t == timeOf(d.value)
  {
    if d.None? || d.value == "" then 0 else timeOf(d.value)
  }

  /** The comparator passed to `sort`: negative when `a` goes first. */
  function Compare(opt: SortOption, a: MediaItem, b: MediaItem, timeOf: string -> int): int {
    match opt
    case NameAsc => CompareText(a.name, b.name)
    case NameDesc => CompareText(b.name, a.name)
    case DateDesc => DateValue(b.date, timeOf) - DateValue(a.date, timeOf)
    case DateAsc => DateValue(a.date, timeOf) - DateValue(b.date, timeOf)
    case Unsorted => 0
  }

  /** Every comparator used here is total: of two items, one may go first. */
  lemma CompareTotal(opt: SortOption, a: MediaItem, b: MediaItem, timeOf: string -> int)
    ensures Compare(opt, a, b, timeOf) > 0 ==> Compare(opt, b, a, timeOf) < 0
  {
    CompareTextAntisymmetric(a.name, b.name);
  }

  /** The comparator function handed to `sort` for a sort key. */
  function Comparator(opt: SortOption, timeOf: string -> int): (MediaItem, MediaItem) -> int {
    (a: MediaItem, b: MediaItem) => Compare(opt, a, b, timeOf)
  }

  /** When `a` must go after `b`, `b` may go before `a`. */
  ghost predicate Antisymmetric(cmp: (MediaItem, MediaItem) -> int) {
    forall a, b :: cmp(a, b) > 0 ==> cmp(b, a) < 0
  }

  lemma ComparatorAntisymmetric(opt: SortOption, timeOf: string -> int)
    ensures Antisymmetric(Comparator(opt, timeOf))
  {
    forall a, b ensures Comparator(opt, timeOf)(a, b) > 0 ==> Comparator(opt, timeOf)(b, a) < 0 {
      CompareTotal(opt, a, b, timeOf);
    }
  }

  // ---------------------------------------------------------------------------
  // The stable sort

  /** `x` placed before the first element it does not follow. */
  function Insert(x: MediaItem, s: seq<MediaItem>, cmp: (MediaItem, MediaItem) -> int): seq<MediaItem> {
    if s == [] || cmp(x, s[0]) <= 0 then [x] + s
    else [s[0]] + Insert(x, s[1..], cmp)
  }

  /** `Array.prototype.sort(cmp)`, which is stable: insertion sort from the back. */
  function Sort(s: seq<MediaItem>, cmp: (MediaItem, MediaItem) -> int): seq<MediaItem> {
    if s == [] then [] else Insert(s[0], Sort(s[1..], cmp), cmp)
  }

  /** Each element goes no later than its successor under the comparator. */
  predicate Ordered(s: seq<MediaItem>, cmp: (MediaItem, MediaItem) -> int) {
    forall i :: 0 < i < |s| ==> cmp(s[i - 1], s[i]) <= 0
  }

  lemma {:induction false} InsertFacts(x: MediaItem, s: seq<MediaItem>, cmp: (MediaItem, MediaItem) -> int)
    requires Antisymmetric(cmp) && Ordered(s, cmp)
    ensures multiset(Insert(x, s, cmp)) == multiset(s) + multiset{x}
    ensures Ordered(Insert(x, s, cmp), cmp)
    ensures |Insert(x, s, cmp)| == |s| + 1
    ensures Insert(x, s, cmp)[0] == x || (s != [] && Insert(x, s, cmp)[0] == s[0])
  {
    if s != [] && cmp(x, s[0]) > 0 {
      var t := Insert(x, s[1..], cmp);
      OrderedTail(s, cmp);
      InsertFacts(x, s[1..], cmp);
      assert cmp(s[0], x) < 0;
      assert s == [s[0]] + s[1..];
      var head := if t[0] == x then x else s[1];
      assert t[0] == head;
      OrderedCons(s[0], t, cmp);
    } else {
      OrderedCons(x, s, cmp);
    }
  }

  /** A suffix of an ordered sequence is ordered. */
  lemma OrderedTail(s: seq<MediaItem>, cmp: (MediaItem, MediaItem) -> int)
    requires s != [] && Ordered(s, cmp)
    ensures Ordered(s[1..], cmp)
  {
    forall i | 0 < i < |s[1..]| ensures cmp(s[1..][i - 1], s[1..][i]) <= 0 {
      assert s[1..][i - 1] == s[i] && s[1..][i] == s[i + 1];
    }
  }

  /** An element that goes no later than the head of an ordered sequence extends it. */
  lemma OrderedCons(y: MediaItem, t: seq<MediaItem>, cmp: (MediaItem, MediaItem) -> int)
    requires Ordered(t, cmp) && (t != [] ==> cmp(y, t[0]) <= 0)
    ensures Ordered([y] + t, cmp)
  {
    var r := [y] + t;
    forall i | 0 < i < |r| ensures cmp(r[i - 1], r[i]) <= 0 {
      if i > 1 {
        assert r[i - 1] == t[i - 2] && r[i] == t[i - 1];
      }
    }
  }

  /** The sort rearranges its input and leaves it ordered. */
  lemma {:induction false} SortFacts(s: seq<MediaItem>, cmp: (MediaItem, MediaItem) -> int)
    requires Antisymmetric(cmp)
    ensures multiset(Sort(s, cmp)) == multiset(s)
    ensures Ordered(Sort(s, cmp), cmp)
  {
    if s != [] {
      SortFacts(s[1..], cmp);
      InsertFacts(s[0], Sort(s[1..], cmp), cmp);
      assert s == [s[0]] + s[1..];
    }
  }

  /** With an unknown key every pair compares equal, and the stable sort keeps the order. */
  lemma {:induction false} UnsortedKeepsOrder(s: seq<MediaItem>, timeOf: string -> int)
    ensures Sort(s, Comparator(Unsorted, timeOf)) == s
  {
    if s != [] {
      UnsortedKeepsOrder(s[1..], timeOf);
      assert s == [s[0]] + s[1..];
    }
  }

  // ---------------------------------------------------------------------------
  // Filtering

  function FilterByType(s: seq<MediaItem>, filter: TypeFilter): seq<MediaItem> {
    if s == [] then []
    else (if filter.All? || s[0].kind == filter.kind then [s[0]] else []) + FilterByType(s[1..], filter)
  }

  /** `item.name.toLowerCase().includes(q)`. */
  predicate NameMatches(item: MediaItem, q: string) {
    Contains(Lower(item.name), q)
  }

  function FilterByName(s: seq<MediaItem>, q: string): seq<MediaItem> {
    if s == [] then []
    else (if NameMatches(s[0], q) then [s[0]] else []) + FilterByName(s[1..], q)
  }

  /** Whether one item survives both filters. */
  predicate Shown(item: MediaItem, filter: TypeFilter, query: string) {
    && (filter.All? || item.kind == filter.kind)
    && (query == [] || NameMatches(item, Lower(query)))
  }

  /** The items that survive both filters, in their original order. */
  function Selected(s: seq<MediaItem>, filter: TypeFilter, query: string): seq<MediaItem> {
    if s == [] then []
    else (if Shown(s[0], filter, query) then [s[0]] else []) + Selected(s[1..], filter, query)
  }

  /** processedItems: copy, filter by type, filter by the lowercased query when it is not empty, sort. */
  function ProcessedItems(items: seq<MediaItem>, filter: TypeFilter, query: string, opt: SortOption,
                          timeOf: string -> int): seq<MediaItem>
  {
    var byType := FilterByType(items, filter);
    var byName := if query != [] then FilterByName(byType, Lower(query)) else byType;
    Sort(byName, Comparator(opt, timeOf))
  }

  /** The two successive filters keep exactly the items `Shown` accepts, in order. */
  lemma {:induction false} FiltersSelect(s: seq<MediaItem>, filter: TypeFilter, query: string)
    ensures (if query != [] then FilterByName(FilterByType(s, filter), Lower(query)) else FilterByType(s, filter))
      == Selected(s, filter, query)
  {
    if s != [] {
      FiltersSelect(s[1..], filter, query);
      var head := if filter.All? || s[0].kind == filter.kind then [s[0]] else [];
      var rest := FilterByType(s[1..], filter);
      assert FilterByType(s, filter) == head + rest;
      if query != [] {
        FilterByNameConcat(head, rest, Lower(query));
        if head != [] {
          assert head[1..] == [];
        }
      }
    }
  }

  lemma {:induction false} FilterByNameConcat(a: seq<MediaItem>, b: seq<MediaItem>, q: string)
    ensures FilterByName(a + b, q) == FilterByName(a, q) + FilterByName(b, q)
  {
    if a != [] {
      assert (a + b)[1..] == a[1..] + b;
      FilterByNameConcat(a[1..], b, q);
    } else {
      assert a + b == b;
    }
  }

  /** An item is in the selection exactly when it is loaded and survives both filters. */
  lemma {:induction false} SelectedMembers(s: seq<MediaItem>, filter: TypeFilter, query: string, x: MediaItem)
    ensures x in Selected(s, filter, query) <==> x in s && Shown(x, filter, query)
  {
    if s != [] {
      SelectedMembers(s[1..], filter, query, x);
      assert s == [s[0]] + s[1..];
    }
  }

  /**
   * The projection is a permutation of the selected items, ordered under the
   * chosen key, and it shows exactly the loaded items that survive the filters.
   */
  lemma ProcessedItemsFacts(items: seq<MediaItem>, filter: TypeFilter, query: string, opt: SortOption,
                            timeOf: string -> int)
    ensures multiset(ProcessedItems(items, filter, query, opt, timeOf)) == multiset(Selected(items, filter, query))
    ensures Ordered(ProcessedItems(items, filter, query, opt, timeOf), Comparator(opt, timeOf))
    ensures forall x :: x in ProcessedItems(items, filter, query, opt, timeOf) <==> x in items && Shown(x, filter, query)
  {
    var sel := Selected(items, filter, query);
    FiltersSelect(items, filter, query);
    ComparatorAntisymmetric(opt, timeOf);
    SortFacts(sel, Comparator(opt, timeOf));
    forall x ensures x in ProcessedItems(items, filter, query, opt, timeOf) <==> x in items && Shown(x, filter, query) {
      SelectedMembers(items, filter, query, x);
      assert x in ProcessedItems(items, filter, query, opt, timeOf) <==> x in multiset(sel);
    }
  }

  /** With an unknown sort key the projection is the selection in its original order. */
  lemma ProcessedUnsorted(items: seq<MediaItem>, filter: TypeFilter, query: string, timeOf: string -> int)
    ensures ProcessedItems(items, filter, query, Unsorted, timeOf) == Selected(items, filter, query)
  {
    FiltersSelect(items, filter, query);
    UnsortedKeepsOrder(Selected(items, filter, query), timeOf);
  }

  /** Undated items and items with an empty date sort together, as time 0. */
  lemma UndatedSortAsZero(a: MediaItem, b: MediaItem, timeOf: string -> int)
    requires a.date.None? && b.date == Some("")
    ensures Compare(DateAsc, a, b, timeOf) == 0 && Compare(DateDesc, a, b, timeOf) == 0
  {
  }
}
