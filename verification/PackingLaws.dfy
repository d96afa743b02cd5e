/** Where the packed groups stand, counted on the pages themselves. */
module PackingLaws {
  import opened Common
  import opened Packing

  /** How many of a page's first `n` cards are in a column. */
  ghost function InColumnBefore<T(!new)>(cards: seq<Placed<T>>, n: nat, c: nat): nat
    requires n <= |cards|
  {
    |set i | 0 <= i < n && cards[i].column == c|
  }

  lemma {:induction false} CountedOnPage<T(!new)>(cards: seq<Placed<T>>, n: nat, c: nat)
    requires n <= |cards|
    ensures CountIn(cards[..n], c) == InColumnBefore(cards, n, c)
  {
    if n > 0 {
      CountedOnPage(cards, n - 1, c);
      assert cards[..n][..n - 1] == cards[..n - 1];
      var before := set i | 0 <= i < n - 1 && cards[i].column == c;
      assert (set i | 0 <= i < n && cards[i].column == c)
          == before + if cards[n - 1].column == c then {n - 1} else {};
    }
  }

  /** The column's cards before card `k` of the board, on `k`'s page. */
  ghost function Filling<T(!new)>(pages: seq<Page<T>>, k: nat, c: nat): nat
    requires At(pages, k).Some?
  {
    InColumnBefore(pages[k / 12].cards, k % 12, c)
  }

  /** Every card of the group stands in column `c` of the page it starts on, unmarked. */
  ghost predicate WholeIn<T(!new)>(pages: seq<Page<T>>, s: nat, n: nat, c: nat) {
    forall k :: s <= k < s + n ==> StandsIn(pages, s, k, c)
  }

  /** Card `k` stands in column `c` of the page of card `s`, unmarked. */
  ghost predicate StandsIn<T(!new)>(pages: seq<Page<T>>, s: nat, k: nat, c: nat) {
    At(pages, k).Some? && k / 12 == s / 12 && At(pages, k).value.column == c && !At(pages, k).value.continuation
  }

  /** The card takes the first column of its page with a free row. */
  ghost predicate FirstFree<T(!new)>(pages: seq<Page<T>>, k: nat) {
    && At(pages, k).Some? && Filling(pages, k, At(pages, k).value.column) < BOARD_ROWS
    && forall c :: 0 <= c < At(pages, k).value.column ==> Filling(pages, k, c) >= BOARD_ROWS
  }

  /** Room for `n` cards in the column, as it stands where card `s` starts. */
  ghost predicate Room<T(!new)>(pages: seq<Page<T>>, s: nat, n: nat, c: nat)
    requires At(pages, s).Some?
  {
    c < BOARD_COLUMNS && Filling(pages, s, c) + n <= BOARD_ROWS
  }

  lemma GroupStarts<T(!new)>(pages: seq<Page<T>>, groups: seq<seq<T>>, g: nat)
    requires BoardRight(pages, groups) && g < |groups| && groups[g] != []
    ensures At(pages, Start(groups, g)).Some?
  {
    GroupCard(pages, groups, g, 0);
  }

  lemma FillingCounts<T(!new)>(pages: seq<Page<T>>, k: nat, c: nat)
    requires At(pages, k).Some?
    ensures CountIn(Before(pages, k), c) == Filling(pages, k, c)
  {
    CountedOnPage(pages[k / 12].cards, k % 12, c);
  }

  /** On a right page the two columns hold all the cards, at most six each. */
  lemma {:induction false} ColumnsHoldAll<T(!new)>(page: Page<T>, n: nat)
    requires PageOk(page) && n <= |page.cards|
    ensures CountIn(page.cards[..n], 0) + CountIn(page.cards[..n], 1) == n
    ensures CountIn(page.cards[..n], 0) <= BOARD_ROWS && CountIn(page.cards[..n], 1) <= BOARD_ROWS
  {
    CountGrows(page.cards, n, |page.cards|, 0);
    CountGrows(page.cards, n, |page.cards|, 1);
    assert page.cards[..|page.cards|] == page.cards;
    if n > 0 {
      ColumnsHoldAll(page, n - 1);
      assert page.cards[..n][..n - 1] == page.cards[..n - 1];
      assert NextRow(page.cards, n - 1);
    }
  }

  /** A group with room in a column of its page ends on that page. */
  lemma EndsOnPage<T(!new)>(pages: seq<Page<T>>, groups: seq<seq<T>>, s: nat, n: nat, c: nat)
    requires BoardRight(pages, groups) && At(pages, s).Some? && Room(pages, s, n, c)
    ensures s % 12 + n <= 12
  {
    PageShownOk(pages, groups, s);
    ColumnsHoldAll(pages[s / 12], s % 12);
    FillingCounts(pages, s, c);
  }

  lemma RuledColumn<T(!new)>(pages: seq<Page<T>>, s: nat, n: nat, k: nat)
    requires At(pages, s).Some? && At(pages, k).Some?
    ensures Room(pages, s, n, 0) ==> ColumnRule(pages, s, n, k) == 0
    ensures !Room(pages, s, n, 0) && Room(pages, s, n, 1) ==> ColumnRule(pages, s, n, k) == 1
    ensures !Room(pages, s, n, 0) && !Room(pages, s, n, 1) ==>
              ColumnRule(pages, s, n, k) == if Filling(pages, k, 0) < BOARD_ROWS then 0 else 1
  {
    FillingCounts(pages, s, 0);
    FillingCounts(pages, s, 1);
    FillingCounts(pages, k, 0);
  }

  /** A group that fits a column of its page stands whole in the first such column. */
  lemma FittingGroupWhole<T(!new)>(pages: seq<Page<T>>, groups: seq<seq<T>>, g: nat, c: nat)
    requires BoardRight(pages, groups) && g < |groups| && groups[g] != [] && At(pages, Start(groups, g)).Some?
    requires Room(pages, Start(groups, g), |groups[g]|, c)
    requires forall b :: 0 <= b < c ==> !Room(pages, Start(groups, g), |groups[g]|, b)
    ensures WholeIn(pages, Start(groups, g), |groups[g]|, c)
  {
    var s, n := Start(groups, g), |groups[g]|;
    EndsOnPage(pages, groups, s, n, c);
    forall k | s <= k < s + n ensures StandsIn(pages, s, k, c) {
      CardFits(pages, groups, g, c, k);
    }
  }

  lemma CardFits<T(!new)>(pages: seq<Page<T>>, groups: seq<seq<T>>, g: nat, c: nat, k: nat)
    requires BoardRight(pages, groups) && g < |groups| && At(pages, Start(groups, g)).Some?
    requires Start(groups, g) <= k < Start(groups, g) + |groups[g]|
    requires Start(groups, g) % 12 + |groups[g]| <= 12 && Room(pages, Start(groups, g), |groups[g]|, c)
    requires forall b :: 0 <= b < c ==> !Room(pages, Start(groups, g), |groups[g]|, b)
    ensures StandsIn(pages, Start(groups, g), k, c)
  {
    var s := Start(groups, g);
    assert PlacedRight(pages, groups[g], s, k - s);
    RuledColumn(pages, s, |groups[g]|, k);
  }

  /** A group that fits no column of its page is poured: each card takes the first column with a free row. */
  lemma OtherGroupPoured<T(!new)>(pages: seq<Page<T>>, groups: seq<seq<T>>, g: nat, j: nat)
    requires BoardRight(pages, groups) && g < |groups| && j < |groups[g]| && At(pages, Start(groups, g)).Some?
    requires forall c :: !Room(pages, Start(groups, g), |groups[g]|, c)
    ensures FirstFree(pages, Start(groups, g) + j)
  {
    var s, k := Start(groups, g), Start(groups, g) + j;
    assert PlacedRight(pages, groups[g], s, j);
    RuledColumn(pages, s, |groups[g]|, k);
    FreeRow(pages, groups, k);
  }

  /** Where the first column is full the second has a free row for the next card. */
  lemma FreeRow<T(!new)>(pages: seq<Page<T>>, groups: seq<seq<T>>, k: nat)
    requires BoardRight(pages, groups) && At(pages, k).Some?
    ensures Filling(pages, k, 0) >= BOARD_ROWS ==> Filling(pages, k, 1) < BOARD_ROWS
  {
    PageShownOk(pages, groups, k);
    ColumnsHoldAll(pages[k / 12], k % 12);
    FillingCounts(pages, k, 0);
    FillingCounts(pages, k, 1);
  }
}
