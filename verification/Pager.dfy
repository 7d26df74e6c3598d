/** Cursor pagination over items ordered by rank, then id. */
module Pager {
  import opened Options
  import opened Sorting

  datatype Item = Item(id: string, rank: int)
  datatype Cursor = Cursor(rank: int, id: string)
  datatype Outcome = Panic | Page(items: seq<Item>, next: Option<Cursor>)

  predicate ItemLe(a: Item, b: Item) {
    a.rank < b.rank || (a.rank == b.rank && StrLe(a.id, b.id))
  }

  function KeyOf(item: Item): Cursor {
    Cursor(item.rank, item.id)
  }

  /** The comparison of the binary search: item comes strictly after the cursor. */
  predicate Above(item: Item, c: Cursor) {
    if item.rank != c.rank then item.rank > c.rank else !StrLe(item.id, c.id)
  }

  function Sorted(items: seq<Item>): seq<Item> {
    Sort(items, ItemLe)
  }

  /** What is left to show after a cursor: a plain filter, with no search. */
  function Rest(ordered: seq<Item>, after: Option<Cursor>): seq<Item> {
    if after.None? || ordered == [] then ordered
    else if Above(ordered[0], after.value) then [ordered[0]] + Rest(ordered[1..], after)
    else Rest(ordered[1..], after)
  }

  /** The page that prompt.md asks for: the first `size` items after the cursor, and a cursor
      exactly when something follows them. */
  function PageOf(items: seq<Item>, after: Option<Cursor>, size: int): Outcome {
    if size <= 0 then Panic
    else
      var rest := Rest(Sorted(items), after);
      if |rest| <= size then Page(rest, None)
      else Page(rest[..size], Some(KeyOf(rest[size - 1])))
  }

  lemma ItemLeIsOrder()
    ensures TotalPreorder(ItemLe) && Antisymmetric(ItemLe)
  {
    StrLeIsOrder();
  }

  lemma SortedKeeps(items: seq<Item>)
    ensures SortedBy(Sorted(items), ItemLe)
    ensures multiset(Sorted(items)) == multiset(items) && |Sorted(items)| == |items|
  {
    ItemLeIsOrder();
    SortSorted(items, ItemLe);
    SortKeeps(items, ItemLe);
  }

  lemma AboveIsUpward(a: Item, b: Item, c: Cursor)
    requires ItemLe(a, b) && Above(a, c)
    ensures Above(b, c)
  {
    if a.rank == b.rank == c.rank && StrLe(b.id, c.id) {
      StrLeTransitive(a.id, b.id, c.id);
    }
  }

  lemma RestOfNone(ordered: seq<Item>)
    ensures Rest(ordered, None) == ordered
  {
  }

  /** In a sorted list the items after a cursor are a suffix: those from the first one above it. */
  lemma {:induction false} RestIsSuffix(ordered: seq<Item>, after: Option<Cursor>, k: int)
    requires SortedBy(ordered, ItemLe) && after.Some? && 0 <= k <= |ordered|
    requires forall i :: 0 <= i < k ==> !Above(ordered[i], after.value)
    requires forall i :: k <= i < |ordered| ==> Above(ordered[i], after.value)
    ensures Rest(ordered, after) == ordered[k..]
  {
    if ordered != [] {
      var tail := ordered[1..];
      if k == 0 {
        RestIsSuffix(tail, after, 0);
        assert ordered[0..] == [ordered[0]] + tail[0..];
      } else {
        RestIsSuffix(tail, after, k - 1);
        assert tail[k - 1..] == ordered[k..];
      }
    }
  }

  lemma {:induction false} RestAbove(ordered: seq<Item>, after: Option<Cursor>)
    ensures |Rest(ordered, after)| <= |ordered|
    ensures multiset(Rest(ordered, after)) <= multiset(ordered)
    ensures after.Some? ==> forall i :: 0 <= i < |Rest(ordered, after)| ==> Above(Rest(ordered, after)[i], after.value)
  {
    hide Rest, Above;
    RestKeeps(ordered, after);
    if after.Some? {
      RestIsFiltered(ordered, after);
    }
  }

  lemma {:induction false} RestKeeps(ordered: seq<Item>, after: Option<Cursor>)
    ensures |Rest(ordered, after)| <= |ordered|
    ensures multiset(Rest(ordered, after)) <= multiset(ordered)
  {
    hide Above;
    if after.Some? && ordered != [] {
      RestKeeps(ordered[1..], after);
      assert ordered == [ordered[0]] + ordered[1..];
    }
  }

  lemma {:induction false} RestIsFiltered(ordered: seq<Item>, after: Option<Cursor>)
    requires after.Some?
    ensures forall i :: 0 <= i < |Rest(ordered, after)| ==> Above(Rest(ordered, after)[i], after.value)
  {
    hide Above;
    if ordered != [] {
      RestIsFiltered(ordered[1..], after);
    }
  }

  /** `sort.Search`: the first index whose item is above the cursor. */
  method Search(ordered: seq<Item>, c: Cursor) returns (start: int)
    requires SortedBy(ordered, ItemLe)
    ensures 0 <= start <= |ordered|
    ensures forall i :: 0 <= i < start ==> !Above(ordered[i], c)
    ensures forall i :: start <= i < |ordered| ==> Above(ordered[i], c)
  {
    hide Above, ItemLe;
    var i, j := 0, |ordered|;
    while i < j
      invariant 0 <= i <= j <= |ordered|
      invariant forall k :: 0 <= k < i ==> !Above(ordered[k], c)
      invariant forall k :: j <= k < |ordered| ==> Above(ordered[k], c)
    {
      var h := (i + j) / 2;
      if !Above(ordered[h], c) {
        forall k | 0 <= k < h ensures !Above(ordered[k], c) {
          if Above(ordered[k], c) {
            AboveIsUpward(ordered[k], ordered[h], c);
          }
        }
        i := h + 1;
      } else {
        forall k | h < k < |ordered| ensures Above(ordered[k], c) {
          AboveIsUpward(ordered[h], ordered[k], c);
        }
        j := h;
      }
    }
    start := i;
  }

  /** `Page`. */
  method PageAfter(items: seq<Item>, after: Option<Cursor>, size: int) returns (out: Outcome)
    ensures out == PageOf(items, after, size)
  {
    hide Rest, Sorted, Above, ItemLe;
    if size <= 0 {
      return Panic;
    }
    var ordered := Sorted(items);
    SortedKeeps(items);
    var start := 0;
    if after.Some? {
      start := Search(ordered, after.value);
      RestIsSuffix(ordered, after, start);
    } else {
      RestOfNone(ordered);
      assert ordered[0..] == ordered;
    }
    var end := start + size;
    if end > |ordered| {
      end := |ordered|;
    }
    var page := ordered[start..end];
    if |page| == 0 {
      return Page([], None);
    }
    if end >= |ordered| {
      return Page(page, None);
    }
    var last := page[|page| - 1];
    return Page(page, Some(KeyOf(last)));
  }

  /** On any list: a page holds only items strictly after its cursor, no more often than the list
      does, never more than `size`, and exactly `size` when it hands out a cursor, which is then the
      key of its last item. */
  lemma PageIsAfterCursor(items: seq<Item>, after: Option<Cursor>, size: int)
    requires size > 0
    ensures var page := PageOf(items, after, size);
            && |page.items| <= size
            && multiset(page.items) <= multiset(items)
            && (page.next.Some? ==> |page.items| == size && page.next.value == KeyOf(page.items[size - 1]))
            && (after.Some? ==> forall i :: 0 <= i < |page.items| ==> Above(page.items[i], after.value))
  {
    hide Rest, Sorted, Above;
    var rest := Rest(Sorted(items), after);
    RestAbove(Sorted(items), after);
    SortedKeeps(items);
    if |rest| > size {
      assert rest == rest[..size] + rest[size..];
    }
  }

  // ---------------------------------------------------------------- walking

  lemma LastIsNotAbove(item: Item)
    ensures !Above(item, KeyOf(item))
  {
    StrLeTotal(item.id, item.id);
  }

  lemma {:induction false} RestShrinks(ordered: seq<Item>, after: Option<Cursor>, last: Item)
    requires SortedBy(ordered, ItemLe)
    requires last in Rest(ordered, after)
    ensures |Rest(ordered, Some(KeyOf(last)))| < |Rest(ordered, after)|
  {
    if after.None? {
      RestDrops(ordered, last);
    } else {
      RestAbove(ordered, after);
      assert last in multiset(Rest(ordered, after));
      RestNarrows(ordered, after.value, last);
    }
  }

  lemma {:induction false} RestDrops(ordered: seq<Item>, last: Item)
    requires last in ordered
    ensures |Rest(ordered, Some(KeyOf(last)))| < |ordered|
  {
    if ordered[0] == last {
      LastIsNotAbove(last);
      RestAbove(ordered[1..], Some(KeyOf(last)));
    } else {
      RestDrops(ordered[1..], last);
    }
  }

  lemma AboveTransitive(x: Item, last: Item, c: Cursor)
    requires Above(x, KeyOf(last)) && Above(last, c)
    ensures Above(x, c)
  {
    if x.rank == last.rank == c.rank {
      StrLeTotal(x.id, last.id);
      if StrLe(x.id, c.id) {
        StrLeTransitive(last.id, x.id, c.id);
      }
    }
  }

  lemma {:induction false} RestNarrows(ordered: seq<Item>, c: Cursor, last: Item)
    requires Above(last, c)
    ensures |Rest(ordered, Some(KeyOf(last)))| <= |Rest(ordered, Some(c))|
    ensures last in ordered ==> |Rest(ordered, Some(KeyOf(last)))| < |Rest(ordered, Some(c))|
  {
    if ordered != [] {
      RestNarrows(ordered[1..], c, last);
      if Above(ordered[0], KeyOf(last)) {
        AboveTransitive(ordered[0], last, c);
      }
      LastIsNotAbove(last);
    }
  }

  /** The pages a client sees who starts at `after` and follows every cursor until there is none. */
  function Walk(items: seq<Item>, after: Option<Cursor>, size: int): seq<seq<Item>>
    requires size > 0
    decreases |Rest(Sorted(items), after)|
  {
    var page := PageOf(items, after, size);
    if page.next.None? then [page.items]
    else
      assert |Rest(Sorted(items), page.next)| < |Rest(Sorted(items), after)| by {
        SortedKeeps(items);
        RestShrinks(Sorted(items), after, Rest(Sorted(items), after)[size - 1]);
      }
      [page.items] + Walk(items, page.next, size)
  }

  function Concat(pages: seq<seq<Item>>): seq<Item> {
    if pages == [] then [] else pages[0] + Concat(pages[1..])
  }

  /** No page boundary falls between two equal items. */
  ghost predicate CleanBoundaries(xs: seq<Item>, size: int)
    requires size > 0
  {
    forall i :: 0 < i < |xs| && i % size == 0 ==> xs[i - 1] != xs[i]
  }

  lemma CleanStep(xs: seq<Item>, size: int)
    requires 0 < size < |xs|
    ensures CleanBoundaries(xs, size) <==> xs[size - 1] != xs[size] && CleanBoundaries(xs[size..], size)
  {
    var tail := xs[size..];
    assert size % size == 0;
    if CleanBoundaries(xs, size) {
      forall i | 0 < i < |tail| && i % size == 0 ensures tail[i - 1] != tail[i] {
        ModShift(i, size);
        assert xs[i + size - 1] != xs[i + size];
      }
    }
    if xs[size - 1] != xs[size] && CleanBoundaries(tail, size) {
      forall i | 0 < i < |xs| && i % size == 0 ensures xs[i - 1] != xs[i] {
        if i > size {
          ModShift(i - size, size);
          assert tail[i - size - 1] != tail[i - size];
        } else if i < size {
          SmallIsNoMultiple(i, size);
        }
      }
    }
  }

  lemma AtLeastOnce(n: int, k: int)
    requires n > 0 && k >= 1
    ensures n * k >= n
  {
  }

  lemma DivisionIsUnique(x: int, n: int, q: int, r: int)
    requires x == n * q + r && 0 <= r < n
    ensures x % n == r
  {
    var gap := q - x / n;
    assert n * gap == n * q - n * (x / n);
    assert n * gap == x % n - r;
    if gap >= 1 {
      AtLeastOnce(n, gap);
    } else if gap <= -1 {
      AtLeastOnce(n, -gap);
    }
  }

  lemma ModShift(i: int, size: int)
    requires size > 0
    ensures (i + size) % size == i % size
  {
    assert i + size == size * (i / size + 1) + i % size;
    DivisionIsUnique(i + size, size, i / size + 1, i % size);
  }

  lemma SmallIsNoMultiple(i: int, size: int)
    requires 0 < i < size
    ensures i % size != 0
  {
    DivisionIsUnique(i, size, 0, i);
  }

  /** The item after the boundary decides where the next page starts: right at the boundary, or
      beyond every copy of the boundary item. */
  lemma NextStart(ordered: seq<Item>, start: int, end: int)
    requires SortedBy(ordered, ItemLe) && 0 <= start < end < |ordered|
    ensures var rest := Rest(ordered, Some(KeyOf(ordered[end - 1])));
            if ordered[end - 1] != ordered[end] then rest == ordered[end..] else |rest| < |ordered| - end
  {
    var c := KeyOf(ordered[end - 1]);
    forall i | 0 <= i < end ensures !Above(ordered[i], c) {
      if Above(ordered[i], c) {
        LastIsNotAbove(ordered[end - 1]);
        if i < end - 1 {
          AboveIsUpward(ordered[i], ordered[end - 1], c);
        }
      }
    }
    var next := Search'(ordered, c, end);
    RestIsSuffix(ordered, Some(c), next);
    ItemLeIsOrder();
    assert ItemLe(ordered[end - 1], ordered[end]);
    if ordered[end - 1] != ordered[end] {
      StrLeTotal(ordered[end - 1].id, ordered[end].id);
      assert Above(ordered[end], c);
    }
  }

  /** The first position from `from` on whose item is above the cursor. */
  ghost function Search'(ordered: seq<Item>, c: Cursor, from: int): (k: int)
    requires SortedBy(ordered, ItemLe) && 0 <= from <= |ordered|
    ensures from <= k <= |ordered|
    ensures forall i :: from <= i < k ==> !Above(ordered[i], c)
    ensures forall i :: k <= i < |ordered| ==> Above(ordered[i], c)
    decreases |ordered| - from
  {
    if from == |ordered| then from
    else if Above(ordered[from], c) then
      assert forall i :: from < i < |ordered| ==> Above(ordered[i], c) by {
        forall i | from < i < |ordered| ensures Above(ordered[i], c) {
          AboveIsUpward(ordered[from], ordered[i], c);
        }
      }
      from
    else Search'(ordered, c, from + 1)
  }

  /** Walking never repeats an item, and it shows all that is left exactly when no later page
      boundary splits a group of equal items; otherwise it shows strictly fewer. */
  ghost predicate ShowsIffClean(shown: seq<Item>, rest: seq<Item>, size: int)
    requires size > 0
  {
    && multiset(shown) <= multiset(rest)
    && (if CleanBoundaries(rest, size) then shown == rest else |shown| < |rest|)
  }

  /** One page in front of a walk that already meets the claim: `later` is what the next pages show
      of `left`, the items above the boundary item, and `after` are those past the boundary. */
  lemma ShowsStep(page: seq<Item>, after: seq<Item>, left: seq<Item>, later: seq<Item>, size: int)
    requires 0 < size == |page| && after != []
    requires if page[size - 1] != after[0] then left == after
             else |left| < |after| && left == after[|after| - |left|..]
    requires ShowsIffClean(later, left, size)
    ensures ShowsIffClean(page + later, page + after, size)
  {
    hide CleanBoundaries;
    var xs := page + after;
    CleanStep(xs, size);
    assert xs[size..] == after;
    if page[size - 1] == after[0] {
      var skipped := after[..|after| - |left|];
      assert after == skipped + left;
      SubsetSize(later, left);
    }
  }

  lemma {:induction false} WalkFrom(items: seq<Item>, after: Option<Cursor>, size: int, start: int)
    requires size > 0 && 0 <= start <= |items|
    requires |Sorted(items)| == |items| && Rest(Sorted(items), after) == Sorted(items)[start..]
    ensures ShowsIffClean(Concat(Walk(items, after, size)), Sorted(items)[start..], size)
    decreases |items| - start
  {
    hide Above, ItemLe, KeyOf, Rest, Sorted, CleanBoundaries, ShowsIffClean, PageOf, Walk, Concat;
    var ordered := Sorted(items);
    SortedKeeps(items);
    var rest := ordered[start..];
    if |rest| <= size {
      LastPage(items, after, size);
    } else {
      var end := start + size;
      var c := Some(KeyOf(ordered[end - 1]));
      NextStart(ordered, start, end);
      var next := |items| - |Rest(ordered, c)|;
      RestFromEnd(ordered, c, next);
      WalkFrom(items, c, size, next);
      assert rest[size..] == ordered[end..] && rest == rest[..size] + rest[size..];
      assert ordered[next..] == ordered[end..][next - end..];
      FirstPage(items, after, size);
      ShowsStep(rest[..size], rest[size..], ordered[next..], Concat(Walk(items, c, size)), size);
    }
  }

  lemma LastPage(items: seq<Item>, after: Option<Cursor>, size: int)
    requires size > 0 && |Rest(Sorted(items), after)| <= size
    ensures ShowsIffClean(Concat(Walk(items, after, size)), Rest(Sorted(items), after), size)
  {
    var rest := Rest(Sorted(items), after);
    assert Walk(items, after, size) == [rest];
    assert Concat([rest]) == rest + Concat([]);
    CleanWhenShort(rest, size);
  }

  lemma FirstPage(items: seq<Item>, after: Option<Cursor>, size: int)
    requires 0 < size < |Rest(Sorted(items), after)|
    ensures var rest := Rest(Sorted(items), after);
            Concat(Walk(items, after, size)) ==
            rest[..size] + Concat(Walk(items, Some(KeyOf(rest[size - 1])), size))
  {
    hide Rest, Sorted;
    var rest := Rest(Sorted(items), after);
    var later := Walk(items, Some(KeyOf(rest[size - 1])), size);
    assert Walk(items, after, size) == [rest[..size]] + later;
    assert ([rest[..size]] + later)[1..] == later;
  }

  lemma CleanWhenShort(xs: seq<Item>, size: int)
    requires size > 0 && |xs| <= size
    ensures CleanBoundaries(xs, size)
  {
    forall i | 0 < i < |xs| ensures i % size != 0 {
      SmallIsNoMultiple(i, size);
    }
  }

  lemma RestFromEnd(ordered: seq<Item>, after: Option<Cursor>, k: int)
    requires SortedBy(ordered, ItemLe) && after.Some? && k == |ordered| - |Rest(ordered, after)|
    ensures 0 <= k && Rest(ordered, after) == ordered[k..]
  {
    RestIsSuffix(ordered, after, Search'(ordered, after.value, 0));
  }

  lemma SubsetSize<T>(xs: seq<T>, ys: seq<T>)
    requires multiset(xs) <= multiset(ys)
    ensures |xs| <= |ys|
  {
    assert multiset(ys) == multiset(xs) + (multiset(ys) - multiset(xs));
    assert |multiset(ys)| == |multiset(xs)| + |multiset(ys) - multiset(xs)|;
    assert |multiset(xs)| == |xs| && |multiset(ys)| == |ys|;
  }

  /** Every item is visited exactly once, in order, precisely when no page boundary of the sorted
      list separates two equal items; nothing is ever visited too often. */
  lemma WalkIsCompleteIff(items: seq<Item>, size: int)
    requires size > 0
    ensures var shown := Concat(Walk(items, None, size));
            && multiset(shown) <= multiset(items)
            && (shown == Sorted(items) <==> CleanBoundaries(Sorted(items), size))
            && (multiset(shown) == multiset(items) <==> CleanBoundaries(Sorted(items), size))
  {
    SortedKeeps(items);
    assert Sorted(items)[0..] == Sorted(items);
    WalkFrom(items, None, size, 0);
    var shown := Concat(Walk(items, None, size));
    if multiset(shown) == multiset(items) {
      assert |shown| == |multiset(shown)| == |multiset(items)| == |items|;
    }
  }

  /** With distinct (Rank, ID) keys the walk is complete: the pages, put together, are the sorted list. */
  lemma DistinctKeysAreComplete(items: seq<Item>, size: int)
    requires size > 0 && NoRepeats(items)
    ensures Concat(Walk(items, None, size)) == Sorted(items)
  {
    SortedKeeps(items);
    var ordered := Sorted(items);
    forall i | 0 < i < |ordered| && i % size == 0 ensures ordered[i - 1] != ordered[i] {
      assert NoRepeats(ordered) by {
        PermutationKeepsNoRepeats(items, ordered);
      }
    }
    WalkIsCompleteIff(items, size);
  }

  /** Every page but the last is full. */
  lemma {:induction false} PagesAreFull(items: seq<Item>, after: Option<Cursor>, size: int)
    requires size > 0
    ensures var pages := Walk(items, after, size);
            && |pages| > 0
            && (forall k :: 0 <= k < |pages| - 1 ==> |pages[k]| == size)
            && |pages[|pages| - 1]| <= size
    decreases |Rest(Sorted(items), after)|
  {
    var page := PageOf(items, after, size);
    if page.next.Some? {
      SortedKeeps(items);
      RestShrinks(Sorted(items), after, Rest(Sorted(items), after)[size - 1]);
      PagesAreFull(items, page.next, size);
    }
  }

  /** Two equal items at a boundary: the second is never shown. */
  lemma SplitTieLosesAnItem(x: Item)
    ensures multiset(Concat(Walk([x, x], None, 1))) != multiset([x, x])
  {
    hide Walk, Concat, Sorted;
    var ordered := Sorted([x, x]);
    SortedKeeps([x, x]);
    assert ordered[0] in multiset(ordered) && ordered[1] in multiset(ordered);
    assert !CleanBoundaries(ordered, 1) by {
      assert 1 % 1 == 0;
      assert ordered[1 - 1] == ordered[1];
    }
    WalkIsCompleteIff([x, x], 1);
  }
}
