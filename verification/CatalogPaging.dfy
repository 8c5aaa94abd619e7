/**
 * Filtering, sorting and paging the lodge cards
 * (backend/src/modules/catalog/catalog.service.ts:47-99, 285-302).
 */
module CatalogPaging {
  import opened Wrappers
  import opened CatalogCards

  datatype Sort = Distance | Name | Price | Rating

  /** A query with its comma lists split and its search text trimmed; prices in rupees. */
  datatype Query = Query(ids: Option<set<nat>>, propertyType: Option<nat>, search: string, amenities: seq<string>,
                         minPrice: Option<nat>, maxPrice: Option<nat>, maxDistance: Option<nat>,
                         sort: Option<Sort>, page: Option<nat>, pageSize: Option<nat>)

  datatype Page = Page(items: seq<Card>, page: nat, pageSize: nat, totalItems: nat, totalPages: nat)

  const DEFAULT_PAGE_SIZE: nat := 12
  const MAX_PAGE_SIZE: nat := 50
  const FAR := 9007199254740991

  /** What the query validation lets through. */
  predicate Valid(q: Query) {
    && (q.page.Some? ==> 1 <= q.page.value)
    && (q.pageSize.Some? ==> 1 <= q.pageSize.value <= MAX_PAGE_SIZE)
  }

  // ---------- Filter ----------

  predicate At(text: string, part: string, i: nat)
    requires i + |part| <= |text|
  {
    text[i..i + |part|] == part
  }

  predicate Contains(text: string, part: string) {
    exists i | 0 <= i <= |text| - |part| :: At(text, part, i)
  }

  predicate Matches(card: Card, q: Query) {
    && (q.ids.Some? ==> card.id in q.ids.value)
    && (q.propertyType.Some? ==> card.propertyType == q.propertyType.value)
    && (q.search != "" ==> Contains(Lower(card.name), Lower(q.search)))
    && (forall i | 0 <= i < |q.amenities| :: Lower(q.amenities[i]) in card.slugs)
    && (q.minPrice.Some? ==> card.price.Some? && card.price.value >= 100 * q.minPrice.value)
    && (q.maxPrice.Some? ==> card.price.Some? && card.price.value <= 100 * q.maxPrice.value)
    && (q.maxDistance.Some? ==> card.distance.Some? && card.distance.value <= q.maxDistance.value)
  }

  function Filtered(cards: seq<Card>, q: Query): seq<Card> {
    if cards == [] then []
    else (if Matches(cards[0], q) then [cards[0]] else []) + Filtered(cards[1..], q)
  }

  // ---------- Sort ----------

  function Or(a: Option<int>, default: int): int {
    if a.Some? then a.value else default
  }

  /** The comparator handed to the sort; a price is compared in paise. */
  function Compare(left: Card, right: Card, sort: Sort): int {
    match sort
    case Price => Or(left.price, 100 * FAR) - Or(right.price, 100 * FAR)
    case Rating => Or(right.rating, 0) - Or(left.rating, 0)
    case Name => left.order - right.order
    case Distance =>
      var d := (if left.distance.Some? then left.distance.value else FAR)
               - (if right.distance.Some? then right.distance.value else FAR);
      if d != 0 then d else left.order - right.order
  }

  ghost predicate Ordered(cards: seq<Card>, sort: Sort) {
    forall i, j | 0 <= i < j < |cards| :: Compare(cards[i], cards[j], sort) <= 0
  }

  /** The cards that tie with c, in the order they are listed. */
  function Ties(cards: seq<Card>, c: Card, sort: Sort): seq<Card> {
    if cards == [] then []
    else (if Compare(cards[0], c, sort) == 0 then [cards[0]] else []) + Ties(cards[1..], c, sort)
  }

  /** What a stable sort promises: in order, and cards that tie stay in their original order. */
  ghost predicate IsStableSort(cards: seq<Card>, sorted: seq<Card>, sort: Sort) {
    Ordered(sorted, sort) && forall c :: Ties(sorted, c, sort) == Ties(cards, c, sort)
  }

  function Insert(c: Card, sorted: seq<Card>, sort: Sort): seq<Card> {
    if sorted == [] || Compare(c, sorted[0], sort) <= 0 then [c] + sorted
    else [sorted[0]] + Insert(c, sorted[1..], sort)
  }

  function SortCards(cards: seq<Card>, sort: Sort): seq<Card> {
    if cards == [] then [] else Insert(cards[0], SortCards(cards[1..], sort), sort)
  }

  lemma {:induction false} InsertMembers(c: Card, sorted: seq<Card>, sort: Sort)
    ensures multiset(Insert(c, sorted, sort)) == multiset{c} + multiset(sorted)
  {
    if sorted == [] || Compare(c, sorted[0], sort) <= 0 {
    } else {
      InsertMembers(c, sorted[1..], sort);
      assert sorted == [sorted[0]] + sorted[1..];
    }
  }

  lemma CompareTransitive(a: Card, b: Card, c: Card, sort: Sort)
    requires Compare(a, b, sort) <= 0 && Compare(b, c, sort) <= 0
    ensures Compare(a, c, sort) <= 0
  {
  }

  lemma CompareTotal(a: Card, b: Card, sort: Sort)
    ensures Compare(a, b, sort) <= 0 || Compare(b, a, sort) <= 0
  {
  }

  lemma Prepended(c: Card, cards: seq<Card>, sort: Sort)
    requires Ordered(cards, sort) && forall i | 0 <= i < |cards| :: Compare(c, cards[i], sort) <= 0
    ensures Ordered([c] + cards, sort)
  {
  }

  lemma {:induction false} InsertOrdered(c: Card, sorted: seq<Card>, sort: Sort)
    requires Ordered(sorted, sort)
    ensures Ordered(Insert(c, sorted, sort), sort)
  {
    hide Compare;
    if sorted == [] {
    } else if Compare(c, sorted[0], sort) <= 0 {
      forall i | 0 <= i < |sorted| ensures Compare(c, sorted[i], sort) <= 0 {
        if i > 0 {
          CompareTransitive(c, sorted[0], sorted[i], sort);
        }
      }
      Prepended(c, sorted, sort);
    } else {
      var rest := Insert(c, sorted[1..], sort);
      InsertOrdered(c, sorted[1..], sort);
      InsertMembers(c, sorted[1..], sort);
      CompareTotal(c, sorted[0], sort);
      forall j | 0 <= j < |rest| ensures Compare(sorted[0], rest[j], sort) <= 0 {
        assert rest[j] in multiset(rest);
        assert rest[j] == c || rest[j] in sorted[1..];
      }
      Prepended(sorted[0], rest, sort);
    }
  }

  function Tie(c: Card, d: Card, sort: Sort): seq<Card> {
    if Compare(c, d, sort) == 0 then [c] else []
  }

  lemma TiesPrepended(c: Card, cards: seq<Card>, d: Card, sort: Sort)
    ensures Ties([c] + cards, d, sort) == Tie(c, d, sort) + Ties(cards, d, sort)
  {
    hide Compare;
    assert ([c] + cards)[1..] == cards;
  }

  lemma DifferentTies(a: Card, b: Card, d: Card, sort: Sort)
    requires Compare(a, b, sort) > 0
    ensures Tie(a, d, sort) == [] || Tie(b, d, sort) == []
  {
  }

  lemma {:induction false} InsertTies(c: Card, sorted: seq<Card>, sort: Sort, d: Card)
    ensures Ties(Insert(c, sorted, sort), d, sort) == Ties([c] + sorted, d, sort)
  {
    hide Compare, Ties, Tie;
    if sorted == [] || Compare(c, sorted[0], sort) <= 0 {
    } else {
      var first, rest := sorted[0], sorted[1..];
      InsertTies(c, rest, sort, d);
      TiesPrepended(c, rest, d, sort);
      TiesPrepended(c, sorted, d, sort);
      assert sorted == [first] + rest;
      TiesPrepended(first, rest, d, sort);
      TiesPrepended(first, Insert(c, rest, sort), d, sort);
      DifferentTies(c, first, d, sort);
    }
  }

  lemma {:induction false} SortIsStable(cards: seq<Card>, sort: Sort)
    ensures IsStableSort(cards, SortCards(cards, sort), sort)
  {
    if cards != [] {
      var rest := SortCards(cards[1..], sort);
      SortIsStable(cards[1..], sort);
      InsertOrdered(cards[0], rest, sort);
      forall d ensures Ties(SortCards(cards, sort), d, sort) == Ties(cards, d, sort) {
        InsertTies(cards[0], rest, sort, d);
        assert ([cards[0]] + rest)[1..] == rest;
      }
    }
  }

  lemma TieCounts(c: Card, sort: Sort)
    ensures Tie(c, c, sort) == [c]
  {
  }

  lemma {:induction false} TiesCount(cards: seq<Card>, c: Card, sort: Sort)
    ensures multiset(Ties(cards, c, sort))[c] == multiset(cards)[c]
  {
    hide Compare, Tie;
    if cards != [] {
      var first, rest := cards[0], cards[1..];
      assert cards == [first] + rest;
      TiesCount(rest, c, sort);
      TiesPrepended(first, rest, c, sort);
      TieCounts(c, sort);
      TieIsAtMost(first, c, sort);
    }
  }

  lemma TieIsAtMost(c: Card, d: Card, sort: Sort)
    ensures Tie(c, d, sort) == [] || Tie(c, d, sort) == [c]
  {
  }

  lemma {:induction false} TiesTie(cards: seq<Card>, c: Card, sort: Sort)
    ensures forall d :: d in Ties(cards, c, sort) ==> d in cards && Compare(d, c, sort) == 0
  {
    hide Compare;
    if cards != [] {
      TiesTie(cards[1..], c, sort);
    }
  }

  lemma TiesAreMembers(cards: seq<Card>, c: Card, sort: Sort)
    ensures multiset(Ties(cards, c, sort))[c] == multiset(cards)[c]
    ensures forall d :: d in Ties(cards, c, sort) ==> d in cards && Compare(d, c, sort) == 0
  {
    TiesCount(cards, c, sort);
    TiesTie(cards, c, sort);
  }

  /** A stable sort neither drops, adds nor repeats a card. */
  lemma StableSortPermutes(cards: seq<Card>, sorted: seq<Card>, sort: Sort)
    requires IsStableSort(cards, sorted, sort)
    ensures multiset(sorted) == multiset(cards)
  {
    forall c ensures multiset(sorted)[c] == multiset(cards)[c] {
      TiesAreMembers(sorted, c, sort);
      TiesAreMembers(cards, c, sort);
    }
  }

  /** The first of two lists with the same ties has nothing the second could start before. */
  lemma FirstBelow(a: seq<Card>, b: seq<Card>, sort: Sort)
    requires a != [] && Ordered(b, sort) && Ties(b, a[0], sort) == Ties(a, a[0], sort)
    ensures b != [] && Compare(b[0], a[0], sort) <= 0
  {
    TiesAreMembers(a, a[0], sort);
    TiesAreMembers(b, a[0], sort);
    assert a[0] in multiset(a);
    assert a[0] in b;
  }

  lemma {:induction false} SameTiesSameList(a: seq<Card>, b: seq<Card>, sort: Sort)
    requires Ordered(a, sort) && Ordered(b, sort)
    requires forall c :: Ties(a, c, sort) == Ties(b, c, sort)
    ensures a == b
  {
    if a == [] {
      if b != [] {
        FirstBelow(b, a, sort);
      }
    } else {
      FirstBelow(a, b, sort);
      FirstBelow(b, a, sort);
      assert Ties(a, a[0], sort)[0] == a[0] && Ties(b, a[0], sort)[0] == b[0];
      forall c ensures Ties(a[1..], c, sort) == Ties(b[1..], c, sort) {
        var first := if Compare(a[0], c, sort) == 0 then [a[0]] else [];
        assert Ties(a, c, sort) == first + Ties(a[1..], c, sort) && Ties(b, c, sort) == first + Ties(b[1..], c, sort);
        assert Ties(a, c, sort)[|first|..] == Ties(a[1..], c, sort);
        assert Ties(b, c, sort)[|first|..] == Ties(b[1..], c, sort);
      }
      SameTiesSameList(a[1..], b[1..], sort);
      assert a == [a[0]] + a[1..] && b == [b[0]] + b[1..];
    }
  }

  /** Every stable sort gives the same list, so it does not matter which one the runtime uses. */
  lemma StableSortIsUnique(cards: seq<Card>, sorted: seq<Card>, sort: Sort)
    ensures IsStableSort(cards, sorted, sort) <==> sorted == SortCards(cards, sort)
  {
    SortIsStable(cards, sort);
    if IsStableSort(cards, sorted, sort) {
      SameTiesSameList(sorted, SortCards(cards, sort), sort);
    }
  }

  // ---------- Arithmetic of pages ----------

  function Times(n: nat, size: nat): nat {
    n * size
  }

  /** The page, counted from 0, that position j of the list falls on. */
  function PageIndex(j: nat, size: nat): nat
    requires size >= 1
  {
    j / size
  }

  /** How many pages of the given size hold the items. */
  function PageCount(items: nat, size: nat): nat
    requires size >= 1
  {
    PageIndex(items + size - 1, size)
  }

  lemma TimesNext(n: nat, size: nat)
    ensures Times(n + 1, size) == Times(n, size) + size
  {
  }

  lemma {:induction false} TimesMonotone(m: nat, n: nat, size: nat)
    requires m <= n
    ensures Times(m, size) <= Times(n, size)
    decreases n - m
  {
    if m < n {
      TimesNext(m, size);
      TimesMonotone(m + 1, n, size);
    }
  }

  lemma Divided(a: nat, size: nat)
    requires size >= 1
    ensures Times(PageIndex(a, size), size) <= a < Times(PageIndex(a, size), size) + size
  {
  }

  /** The number of pages is the least that holds all the items. */
  lemma PagesNeeded(items: nat, size: nat, n: nat)
    requires size >= 1
    ensures n >= PageCount(items, size) <==> Times(n, size) >= items
  {
    Divided(items + size - 1, size);
    var count := PageCount(items, size);
    if n >= count {
      TimesMonotone(count, n, size);
    } else {
      TimesNext(n, size);
      TimesMonotone(n + 1, count, size);
    }
  }

  // ---------- Pages ----------

  function Listed(cards: seq<Card>, q: Query): seq<Card> {
    SortCards(Filtered(cards, q), if q.sort.Some? then q.sort.value else Distance)
  }

  function PageSize(q: Query): nat {
    if q.pageSize.Some? then q.pageSize.value else DEFAULT_PAGE_SIZE
  }

  /** s.slice(from, to) for indices that may lie beyond the end. */
  function Slice(s: seq<Card>, from: nat, to: nat): seq<Card>
    requires from <= to
  {
    if from >= |s| then [] else s[from..if to <= |s| then to else |s|]
  }

  function ListLodges(cards: seq<Card>, q: Query): Page
    requires Valid(q)
  {
    var listed, size := Listed(cards, q), PageSize(q);
    var page := if q.page.Some? then q.page.value else 1;
    var start := Times(page - 1, size);
    Page(Slice(listed, start, start + size), page, size, |listed|, PageCount(|listed|, size))
  }

  /** The items of page n. */
  function Items(cards: seq<Card>, q: Query, n: nat): seq<Card>
    requires Valid(q) && n >= 1
  {
    ListLodges(cards, q.(page := Some(n))).items
  }

  /** The items of pages 1 to n, one page after another. */
  function Joined(cards: seq<Card>, q: Query, n: nat): seq<Card>
    requires Valid(q)
  {
    if n == 0 then [] else Joined(cards, q, n - 1) + Items(cards, q, n)
  }

  lemma {:induction false} JoinedIsPrefix(cards: seq<Card>, q: Query, n: nat)
    requires Valid(q)
    ensures Joined(cards, q, n) == Slice(Listed(cards, q), 0, Times(n, PageSize(q)))
  {
    hide Times, PageCount, PageIndex, Listed;
    var listed, size := Listed(cards, q), PageSize(q);
    if n == 0 {
      NoPages(size);
    } else {
      JoinedIsPrefix(cards, q, n - 1);
      TimesNext(n - 1, size);
      var from, to := Times(n - 1, size), Times(n, size);
      assert Items(cards, q, n) == Slice(listed, from, to) by {
        assert Listed(cards, q.(page := Some(n))) == listed by { SameList(cards, q, n); }
      }
      assert Slice(listed, 0, to) == Slice(listed, 0, from) + Slice(listed, from, to);
    }
  }

  lemma NoPages(size: nat)
    ensures Times(0, size) == 0
  {
  }

  lemma {:induction false} SameFilter(cards: seq<Card>, q: Query, n: nat)
    ensures Filtered(cards, q.(page := Some(n))) == Filtered(cards, q)
  {
    if cards != [] {
      SameFilter(cards[1..], q, n);
    }
  }

  /** The list does not depend on the page asked for. */
  lemma SameList(cards: seq<Card>, q: Query, n: nat)
    ensures Listed(cards, q.(page := Some(n))) == Listed(cards, q)
  {
    SameFilter(cards, q, n);
  }

  lemma {:induction false} FilteredMembers(cards: seq<Card>, q: Query, c: Card)
    ensures multiset(Filtered(cards, q))[c] == if Matches(c, q) then multiset(cards)[c] else 0
  {
    if cards != [] {
      FilteredMembers(cards[1..], q, c);
      assert cards == [cards[0]] + cards[1..];
    }
  }

  lemma PagesJoin(cards: seq<Card>, q: Query)
    requires Valid(q)
    ensures Joined(cards, q, ListLodges(cards, q).totalPages) == Listed(cards, q)
  {
    hide Times, PageCount, PageIndex, Listed;
    var total := ListLodges(cards, q).totalPages;
    PagesNeeded(|Listed(cards, q)|, PageSize(q), total);
    JoinedIsPrefix(cards, q, total);
  }

  /**
   * Pages 1 to totalPages, put together, are exactly the stable sort of the matching cards: each
   * matching card as often as it is in the catalogue, and nothing else.
   */
  lemma PagesMakeTheList(cards: seq<Card>, q: Query)
    requires Valid(q)
    ensures var all := Joined(cards, q, ListLodges(cards, q).totalPages);
            && IsStableSort(Filtered(cards, q), all, if q.sort.Some? then q.sort.value else Distance)
            && |all| == ListLodges(cards, q).totalItems
            && forall c :: multiset(all)[c] == if Matches(c, q) then multiset(cards)[c] else 0
  {
    hide Times, PageCount, Joined, Matches, Compare;
    var listed, sort := Listed(cards, q), if q.sort.Some? then q.sort.value else Distance;
    PagesJoin(cards, q);
    SortIsStable(Filtered(cards, q), sort);
    StableSortPermutes(Filtered(cards, q), listed, sort);
    forall c ensures multiset(listed)[c] == if Matches(c, q) then multiset(cards)[c] else 0 {
      FilteredMembers(cards, q, c);
    }
  }

  /** Every page up to the last has cards, every page before the last is full, later pages are empty. */
  lemma PageSizes(cards: seq<Card>, q: Query)
    requires Valid(q)
    ensures var p := ListLodges(cards, q);
            && (p.items != [] <==> p.page <= p.totalPages)
            && (p.page < p.totalPages ==> |p.items| == p.pageSize)
            && |p.items| <= p.pageSize
  {
    hide Times, PageCount, PageIndex, Listed;
    var p := ListLodges(cards, q);
    PagesNeeded(p.totalItems, p.pageSize, p.page - 1);
    PagesNeeded(p.totalItems, p.pageSize, p.page);
    TimesNext(p.page - 1, p.pageSize);
  }

  ghost predicate DistinctIds(cards: seq<Card>) {
    forall i, j | 0 <= i < j < |cards| :: cards[i].id != cards[j].id
  }

  lemma {:induction false} DistinctCounts(cards: seq<Card>, c: Card)
    requires DistinctIds(cards)
    ensures multiset(cards)[c] <= 1
  {
    if cards != [] {
      DistinctCounts(cards[1..], c);
      assert cards == [cards[0]] + cards[1..];
      assert cards[0] !in cards[1..];
    }
  }

  lemma TwicePresent(s: seq<Card>, i: nat, j: nat)
    requires i < j < |s| && s[i] == s[j]
    ensures multiset(s)[s[i]] >= 2
  {
    assert s == s[..j] + s[j..];
    assert s[i] in s[..j] && s[j] in s[j..];
  }

  lemma PageOfPosition(page: nat, size: nat, j: nat)
    requires size >= 1 && Times(page, size) <= j < Times(page, size) + size
    ensures PageIndex(j, size) == page
  {
    hide Times, PageIndex;
    Divided(j, size);
    var other := PageIndex(j, size);
    TimesNext(page, size);
    TimesNext(other, size);
    if other < page {
      TimesMonotone(other + 1, page, size);
    } else if other > page {
      TimesMonotone(page + 1, other, size);
    }
  }

  /** The n-th page holds the cards of the list whose position divided by the page size is n - 1. */
  lemma ItemsByPosition(cards: seq<Card>, q: Query, n: nat, c: Card)
    requires Valid(q) && n >= 1
    ensures c in Items(cards, q, n)
            <==> exists j: nat ::
                   j < |Listed(cards, q)| && Listed(cards, q)[j] == c && PageIndex(j, PageSize(q)) == n - 1
  {
    hide Times, PageCount, PageIndex, Listed;
    var listed, size := Listed(cards, q), PageSize(q);
    var start := Times(n - 1, size);
    SameList(cards, q, n);
    if c in Items(cards, q, n) {
      var k: nat :| k < |Items(cards, q, n)| && Items(cards, q, n)[k] == c;
      PageOfPosition(n - 1, size, start + k);
      assert listed[start + k] == c;
    }
    if j: nat :| j < |listed| && listed[j] == c && PageIndex(j, size) == n - 1 {
      Divided(j, size);
      assert Items(cards, q, n)[j - start] == c;
    }
  }

  lemma OnePosition(s: seq<Card>, c: Card, i: nat, j: nat)
    requires i < |s| && j < |s| && s[i] == c && s[j] == c && multiset(s)[c] <= 1
    ensures i == j
  {
    if j < i {
      TwicePresent(s, j, i);
    } else if i < j {
      TwicePresent(s, i, j);
    }
  }

  lemma ListedOnce(cards: seq<Card>, q: Query, c: Card)
    requires Valid(q) && DistinctIds(cards) && c in cards && Matches(c, q)
    ensures multiset(Listed(cards, q))[c] == 1
  {
    hide Matches, Listed, IsStableSort, Joined;
    PagesMakeTheList(cards, q);
    PagesJoin(cards, q);
    DistinctCounts(cards, c);
    assert c in multiset(cards);
  }

  lemma PageWithin(cards: seq<Card>, q: Query, i: nat)
    requires Valid(q) && i < |Listed(cards, q)|
    ensures PageIndex(i, PageSize(q)) + 1 <= ListLodges(cards, q).totalPages
  {
    hide Times, PageCount, PageIndex, Listed;
    Divided(i, PageSize(q));
    PagesNeeded(|Listed(cards, q)|, PageSize(q), PageIndex(i, PageSize(q)));
  }

  ghost predicate OnlyOnPage(cards: seq<Card>, q: Query, c: Card, n: nat)
    requires Valid(q) && n >= 1
  {
    c in Items(cards, q, n) && forall m: nat | 1 <= m && c in Items(cards, q, m) :: m == n
  }

  lemma PageFromPosition(cards: seq<Card>, q: Query, c: Card, i: nat, m: nat)
    requires Valid(q) && m >= 1 && i < |Listed(cards, q)| && Listed(cards, q)[i] == c
    requires multiset(Listed(cards, q))[c] == 1
    ensures c in Items(cards, q, m) <==> m == PageIndex(i, PageSize(q)) + 1
  {
    hide Items, Listed, PageIndex;
    ItemsByPosition(cards, q, m, c);
    if c in Items(cards, q, m) {
      var j: nat :| j < |Listed(cards, q)| && Listed(cards, q)[j] == c && PageIndex(j, PageSize(q)) == m - 1;
      OnePosition(Listed(cards, q), c, i, j);
    }
  }

  /** With distinct ids, each matching card is on exactly one page. */
  lemma EachCardOnOnePage(cards: seq<Card>, q: Query, c: Card)
    requires Valid(q) && DistinctIds(cards) && c in cards && Matches(c, q)
    ensures exists n: nat :: 1 <= n <= ListLodges(cards, q).totalPages && OnlyOnPage(cards, q, c, n)
  {
    hide Items, Matches, Listed, ListLodges, PageIndex, DistinctIds;
    var listed := Listed(cards, q);
    ListedOnce(cards, q, c);
    assert c in multiset(listed);
    var i: nat :| i < |listed| && listed[i] == c;
    var n := PageIndex(i, PageSize(q)) + 1;
    PageWithin(cards, q, i);
    forall m: nat | 1 <= m ensures c in Items(cards, q, m) <==> m == n {
      PageFromPosition(cards, q, c, i, m);
    }
    assert OnlyOnPage(cards, q, c, n);
  }

  // ---------- What is listed, and in which order ----------

  /** The part stands somewhere in the text, whatever the case of either. */
  ghost predicate Mentions(text: string, part: string) {
    exists before: string, after: string :: Lower(text) == before + Lower(part) + after
  }

  lemma ContainsExactly(text: string, part: string)
    ensures Contains(text, part) <==> exists before: string, after: string :: text == before + part + after
  {
    if i :| 0 <= i <= |text| - |part| && At(text, part, i) {
      assert text == text[..i] + part + text[i + |part|..];
    }
    if before: string, after: string :| text == before + part + after {
      assert At(text, part, |before|);
    }
  }

  /** The six reasons for which a query leaves a card out; prices of a query are rupees, of a card paise. */
  ghost predicate LeftOut(card: Card, q: Query) {
    || (q.ids.Some? && card.id !in q.ids.value)
    || (q.propertyType.Some? && card.propertyType != q.propertyType.value)
    || (q.search != "" && !Mentions(card.name, q.search))
    || (exists i :: 0 <= i < |q.amenities| && Lower(q.amenities[i]) !in card.slugs)
    || (q.minPrice.Some? && (card.price.None? || card.price.value as real / 100.0 < q.minPrice.value as real))
    || (q.maxPrice.Some? && (card.price.None? || card.price.value as real / 100.0 > q.maxPrice.value as real))
    || (q.maxDistance.Some? && (card.distance.None? || card.distance.value > q.maxDistance.value))
  }

  lemma MatchesExactly(card: Card, q: Query)
    ensures Matches(card, q) <==> !LeftOut(card, q)
  {
    hide Contains, Lower;
    ContainsExactly(Lower(card.name), Lower(q.search));
  }

  /** The order the pages come in; what a card lacks counts as farthest, dearest or rated nothing. */
  predicate NotAfter(a: Card, b: Card, sort: Option<Sort>) {
    match sort
    case Some(Price) =>
      if a.price.Some? && b.price.Some? then a.price.value <= b.price.value
      else if a.price.Some? then a.price.value <= 900719925474099100
      else b.price.Some? ==> b.price.value >= 900719925474099100
    case Some(Rating) =>
      if a.rating.Some? && b.rating.Some? then a.rating.value >= b.rating.value
      else if a.rating.Some? then a.rating.value >= 0
      else b.rating.Some? ==> b.rating.value <= 0
    case Some(Name) => a.order <= b.order
    case _ =>
      if a.distance.Some? && b.distance.Some? then
        a.distance.value < b.distance.value || (a.distance.value == b.distance.value && a.order <= b.order)
      else if a.distance.None? && b.distance.None? then a.order <= b.order
      else if a.distance.Some? then
        a.distance.value < 9007199254740991 || (a.distance.value == 9007199254740991 && a.order <= b.order)
      else b.distance.value > 9007199254740991 || (b.distance.value == 9007199254740991 && a.order <= b.order)
  }

  lemma OrderExactly(a: Card, b: Card, sort: Option<Sort>)
    ensures Compare(a, b, if sort.Some? then sort.value else Distance) <= 0 <==> NotAfter(a, b, sort)
  {
  }

  /** The place in the whole list of a card on a page. */
  lemma ItemPlace(cards: seq<Card>, q: Query, n: nat, x: nat) returns (place: nat)
    requires Valid(q) && n >= 1 && x < |Items(cards, q, n)|
    ensures place == Times(n - 1, PageSize(q)) + x && x < PageSize(q)
    ensures place < |Listed(cards, q)| && Listed(cards, q)[place] == Items(cards, q, n)[x]
  {
    hide Times, Listed, PageCount;
    SameList(cards, q, n);
    place := Times(n - 1, PageSize(q)) + x;
  }

  /**
   * Of two cards the one shown earlier, on the same page or an earlier one, is not after the other:
   * cheapest first, best rated first, by name, or nearest first and then by name.
   */
  lemma ShownInOrder(cards: seq<Card>, q: Query, n: nat, x: nat, m: nat, y: nat)
    requires Valid(q) && 1 <= n <= m && x < |Items(cards, q, n)| && y < |Items(cards, q, m)|
    requires n < m || x < y
    ensures NotAfter(Items(cards, q, n)[x], Items(cards, q, m)[y], q.sort)
  {
    hide Times, Items, Compare, NotAfter, Filtered, IsStableSort;
    var i := ItemPlace(cards, q, n, x);
    var j := ItemPlace(cards, q, m, y);
    if n < m {
      TimesMonotone(n, m - 1, PageSize(q));
      TimesNext(n - 1, PageSize(q));
    }
    ListedInOrder(cards, q, i, j);
    OrderExactly(Listed(cards, q)[i], Listed(cards, q)[j], q.sort);
  }

  lemma ListedInOrder(cards: seq<Card>, q: Query, i: nat, j: nat)
    requires Valid(q) && i < j < |Listed(cards, q)|
    ensures Compare(Listed(cards, q)[i], Listed(cards, q)[j], if q.sort.Some? then q.sort.value else Distance) <= 0
  {
    hide Compare;
    SortIsStable(Filtered(cards, q), if q.sort.Some? then q.sort.value else Distance);
  }

  /** The pages show a card exactly when the catalogue has it and none of the six reasons leaves it out. */
  lemma ShownExactly(cards: seq<Card>, q: Query, c: Card)
    requires Valid(q)
    ensures var all := Joined(cards, q, ListLodges(cards, q).totalPages);
            && (c in all <==> c in cards && !LeftOut(c, q))
            && (c in all ==> multiset(all)[c] == multiset(cards)[c])
  {
    hide ListLodges, Joined, Matches, LeftOut, IsStableSort;
    var all := Joined(cards, q, ListLodges(cards, q).totalPages);
    PagesMakeTheList(cards, q);
    MatchesExactly(c, q);
    assert c in all <==> multiset(all)[c] > 0;
    assert c in cards <==> multiset(cards)[c] > 0;
  }

  /** A query that names no page, size or order gets the first page of twelve, nearest first. */
  lemma Defaults(cards: seq<Card>, q: Query)
    requires Valid(q)
    ensures var p := ListLodges(cards, q);
            && p.page == (if q.page.Some? then q.page.value else 1)
            && p.pageSize == (if q.pageSize.Some? then q.pageSize.value else 12)
            && p.items == Items(cards, q, p.page)
            && (q.sort.None? ==> p == ListLodges(cards, q.(sort := Some(Distance))))
  {
    hide Times, PageCount, Matches, SortCards, Slice;
    SameList(cards, q, if q.page.Some? then q.page.value else 1);
    if q.sort.None? {
      SameFilterSorted(cards, q, Distance);
    }
  }

  lemma {:induction false} SameFilterSorted(cards: seq<Card>, q: Query, sort: Sort)
    ensures Filtered(cards, q.(sort := Some(sort))) == Filtered(cards, q)
  {
    if cards != [] {
      SameFilterSorted(cards[1..], q, sort);
    }
  }
}
