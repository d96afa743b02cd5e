/** Filling board pages: two columns of six rows, first fit for short groups, pouring for the rest. */
module Packing {
  import opened Common

  const BOARD_COLUMNS: nat := 2
  const BOARD_ROWS: nat := 6

  datatype Placed<T> = Placed(card: T, continuation: bool, column: nat, row: nat)

  datatype Page<T> = Page(used: seq<nat>, cards: seq<Placed<T>>)

  function Blank<T>(): Page<T> {
    Page([0, 0], [])
  }

  function Last<T>(pages: seq<Page<T>>): Page<T> {
    if pages == [] then Blank() else pages[|pages| - 1]
  }

  function Used<T>(page: Page<T>, column: nat): nat {
    if column < |page.used| then page.used[column] else 0
  }

  // ----- one page -----

  ghost function CountIn<T>(cards: seq<Placed<T>>, c: nat): nat {
    if cards == [] then 0
    else CountIn(cards[..|cards| - 1], c) + (if cards[|cards| - 1].column == c then 1 else 0)
  }

  /** The counters are right, the columns hold at most six rows, and every card took the next row of its column. */
  ghost predicate PageOk<T>(page: Page<T>) {
    && |page.used| == BOARD_COLUMNS
    && (forall c :: 0 <= c < BOARD_COLUMNS ==> page.used[c] == CountIn(page.cards, c) <= BOARD_ROWS)
    && |page.cards| == page.used[0] + page.used[1]
    && forall i :: 0 <= i < |page.cards| ==> NextRow(page.cards, i)
  }

  /** Card `i` of a page took the next row of its column. */
  ghost predicate NextRow<T>(cards: seq<Placed<T>>, i: nat)
    requires i < |cards|
  {
    cards[i].column < BOARD_COLUMNS && cards[i].row == CountIn(cards[..i], cards[i].column)
  }

  function Place<T>(page: Page<T>, column: nat, card: T, continuation: bool): Page<T> {
    Page(seq(|page.used|, c requires 0 <= c < |page.used| => page.used[c] + if c == column then 1 else 0),
         page.cards + [Placed(card, continuation, column, Used(page, column))])
  }

  lemma PlaceKeeps<T>(page: Page<T>, column: nat, card: T, continuation: bool)
    requires PageOk(page) && column < BOARD_COLUMNS && Used(page, column) < BOARD_ROWS
    ensures PageOk(Place(page, column, card, continuation))
  {
    var next := Place(page, column, card, continuation);
    assert next.cards[..|page.cards|] == page.cards;
    forall i | 0 <= i < |next.cards| ensures NextRow(next.cards, i) {
      if i < |page.cards| {
        assert NextRow(page.cards, i) && next.cards[..i] == page.cards[..i];
      }
    }
  }

  lemma {:induction false} CountGrows<T>(cards: seq<Placed<T>>, i: nat, j: nat, c: nat)
    requires i <= j <= |cards|
    ensures CountIn(cards[..i], c) <= CountIn(cards[..j], c)
    ensures i < j && cards[i].column == c ==> CountIn(cards[..i], c) < CountIn(cards[..j], c)
    decreases j
  {
    if i < j {
      CountGrows(cards, i, j - 1, c);
      assert cards[..j][..j - 1] == cards[..j - 1];
    }
  }

  /** One of the first `n` cards sits in column `c`, row `r`. */
  ghost predicate Taken<T>(page: Page<T>, n: nat, c: nat, r: nat)
    requires n <= |page.cards|
  {
    exists h :: 0 <= h < n && page.cards[h].column == c && page.cards[h].row == r
  }

  /** Every row below a column's count is somebody's. */
  lemma {:induction false} RowTaken<T>(page: Page<T>, n: nat, c: nat, r: nat)
    requires PageOk(page) && n <= |page.cards| && r < CountIn(page.cards[..n], c)
    ensures Taken(page, n, c, r)
  {
    assert page.cards[..n][..n - 1] == page.cards[..n - 1];
    assert NextRow(page.cards, n - 1);
    if r < CountIn(page.cards[..n - 1], c) {
      RowTaken(page, n - 1, c, r);
    }
  }

  /** The cells of a page: all in range, all different, and no gap above a taken one. */
  lemma PageCells<T>(page: Page<T>)
    requires PageOk(page)
    ensures forall i :: 0 <= i < |page.cards| ==> page.cards[i].column < BOARD_COLUMNS && page.cards[i].row < BOARD_ROWS
    ensures forall i, j :: 0 <= i < j < |page.cards| && page.cards[i].column == page.cards[j].column ==>
              page.cards[i].row < page.cards[j].row
    ensures forall i, r :: 0 <= i < |page.cards| && 0 <= r < page.cards[i].row ==>
              Taken(page, i, page.cards[i].column, r)
  {
    forall i | 0 <= i < |page.cards| ensures page.cards[i].column < BOARD_COLUMNS && page.cards[i].row < BOARD_ROWS {
      assert NextRow(page.cards, i);
      CountGrows(page.cards, i, |page.cards|, page.cards[i].column);
      assert page.cards[..|page.cards|] == page.cards;
    }
    forall i, j | 0 <= i < j < |page.cards| && page.cards[i].column == page.cards[j].column
      ensures page.cards[i].row < page.cards[j].row
    {
      assert NextRow(page.cards, i) && NextRow(page.cards, j);
      CountGrows(page.cards, i, j, page.cards[i].column);
    }
    forall i, r | 0 <= i < |page.cards| && 0 <= r < page.cards[i].row ensures Taken(page, i, page.cards[i].column, r) {
      assert NextRow(page.cards, i);
      RowTaken(page, i, page.cards[i].column, r);
    }
  }

  // ----- the whole board -----

  /** How many of the first `n` cards page `p` shows. */
  function Share(n: nat, p: nat): nat {
    if p < n / 12 then 12 else if p == n / 12 then n % 12 else 0
  }

  /** `n` cards on the pages, every page but the last one full; the last may have just been opened. */
  ghost predicate Filled<T>(pages: seq<Page<T>>, n: nat) {
    && (n + 11) / 12 <= |pages| <= n / 12 + 1
    && forall p :: 0 <= p < |pages| ==> PageOk(pages[p]) && |pages[p].cards| == Share(n, p)
  }

  /** Filled, with exactly as many pages as the cards need. */
  ghost predicate Packed<T>(pages: seq<Page<T>>, n: nat) {
    Filled(pages, n) && |pages| == (n + 11) / 12
  }

  /** The `k`-th card placed on the board. */
  ghost function At<T>(pages: seq<Page<T>>, k: nat): Option<Placed<T>> {
    if k / 12 < |pages| && k % 12 < |pages[k / 12].cards| then Some(pages[k / 12].cards[k % 12]) else None
  }

  /** The cards placed on card `k`'s page before it. */
  ghost function Before<T>(pages: seq<Page<T>>, k: nat): seq<Placed<T>> {
    if k / 12 < |pages| && k % 12 <= |pages[k / 12].cards| then pages[k / 12].cards[..k % 12] else []
  }

  /** The first `n` cards are the same, and so is what each of them, and the next, found on its page. */
  ghost predicate SameCards<T(!new)>(a: seq<Page<T>>, b: seq<Page<T>>, n: nat) {
    && (forall k: nat :: k < n ==> At(a, k) == At(b, k))
    && (forall k: nat :: k <= n ==> Before(a, k) == Before(b, k))
  }

  /** The columns before `column` are full. */
  ghost predicate FullTo<T>(page: Page<T>, column: nat) {
    forall c :: 0 <= c < column ==> Used(page, c) == BOARD_ROWS
  }

  /** The open page has a free row in `column`. */
  ghost predicate HasRoom<T>(pages: seq<Page<T>>, n: nat, column: nat) {
    Filled(pages, n) && |pages| == n / 12 + 1 && column < BOARD_COLUMNS && Used(Last(pages), column) < BOARD_ROWS
  }

  /** Placing the next card on the last page. */
  function PutLast<T>(pages: seq<Page<T>>, column: nat, card: T, continuation: bool): seq<Page<T>> {
    if pages == [] then [] else pages[|pages| - 1 := Place(Last(pages), column, card, continuation)]
  }

  lemma PutKeeps<T(!new)>(pages: seq<Page<T>>, n: nat, column: nat, card: T, continuation: bool)
    requires HasRoom(pages, n, column)
    ensures var next := PutLast(pages, column, card, continuation);
            Packed(next, n + 1) && |next| == |pages| && SameCards(pages, next, n)
            && At(next, n) == Some(Placed(card, continuation, column, Used(Last(pages), column)))
    ensures Used(Last(PutLast(pages, column, card, continuation)), column) == Used(Last(pages), column) + 1
  {
    PutFilled(pages, n, column, card, continuation);
    var next := PutLast(pages, column, card, continuation);
    assert Last(next).cards == Last(pages).cards + [Placed(card, continuation, column, Used(Last(pages), column))];
    PutSame(pages, next, n);
  }

  lemma FullStays<T>(roomy: seq<Page<T>>, pages: seq<Page<T>>, column: nat, card: T, continuation: bool)
    requires roomy != [] && pages == PutLast(roomy, column, card, continuation)
    ensures FullTo(Last(roomy), column) ==> FullTo(Last(pages), column)
  {
    forall c | 0 <= c < column ensures Used(Last(pages), c) == Used(Last(roomy), c) {
    }
  }

  ghost predicate PutAt<T>(pages: seq<Page<T>>, k: nat, column: nat, card: T, continuation: bool) {
    match At(pages, k)
    case None => false
    case Some(x) => x.card == card && x.column == column && x.continuation == continuation
  }

  /** Place the next card in a column of the open page. */
  method PutNext<T(!new)>(before: seq<Page<T>>, ghost n: nat, column: nat, card: T, continuation: bool)
    returns (pages: seq<Page<T>>)
    requires HasRoom(before, n, column)
    ensures Packed(pages, n + 1) && |pages| == |before| && SameCards(before, pages, n)
    ensures PutAt(pages, n, column, card, continuation)
    ensures Used(Last(pages), column) == Used(Last(before), column) + 1
    ensures FullTo(Last(before), column) ==> FullTo(Last(pages), column)
  {
    PutKeeps(before, n, column, card, continuation);
    pages := PutLast(before, column, card, continuation);
    FullStays(before, pages, column, card, continuation);
  }

  lemma PutFilled<T>(pages: seq<Page<T>>, n: nat, column: nat, card: T, continuation: bool)
    requires HasRoom(pages, n, column)
    ensures Packed(PutLast(pages, column, card, continuation), n + 1)
    ensures Used(Last(PutLast(pages, column, card, continuation)), column) == Used(Last(pages), column) + 1
  {
    PlaceKeeps(Last(pages), column, card, continuation);
    assert |Last(pages).cards| == Used(Last(pages), 0) + Used(Last(pages), 1) < 12;
    ShareNext(n);
  }

  lemma ShareNext(n: nat)
    ensures Share(n + 1, n / 12) == Share(n, n / 12) + 1
    ensures forall p :: 0 <= p < n / 12 ==> Share(n + 1, p) == Share(n, p)
    ensures (n + 1 + 11) / 12 == n / 12 + 1
  {
  }

  lemma PutSame<T(!new)>(pages: seq<Page<T>>, next: seq<Page<T>>, n: nat)
    requires |pages| == n / 12 + 1 == |next| && |pages[n / 12].cards| == n % 12
    requires pages[..n / 12] == next[..n / 12] && |next[n / 12].cards| == n % 12 + 1
    requires next[n / 12].cards[..n % 12] == pages[n / 12].cards
    requires forall p :: 0 <= p < n / 12 ==> |pages[p].cards| == 12
    ensures SameCards(pages, next, n)
  {
    forall p | 0 <= p < n / 12 ensures pages[p] == next[p] {
      assert pages[..n / 12][p] == next[..n / 12][p];
    }
    forall i | 0 <= i < n % 12 ensures next[n / 12].cards[i] == pages[n / 12].cards[i] {
      assert next[n / 12].cards[..n % 12][i] == next[n / 12].cards[i];
    }
    forall k: nat | k <= n ensures Before(pages, k) == Before(next, k) && (k < n ==> At(pages, k) == At(next, k)) {
      if k / 12 == n / 12 {
        assert k % 12 <= n % 12;
        assert pages[n / 12].cards[..k % 12] == next[n / 12].cards[..k % 12];
      }
    }
  }

  /** A freshly opened page changes nothing for the cards before it. */
  lemma BlankSame<T(!new)>(pages: seq<Page<T>>, n: nat)
    requires Filled(pages, n) && n % 12 == 0 && |pages| == n / 12
    ensures SameCards(pages, pages + [Blank()], n)
  {
    var next := pages + [Blank()];
    forall k: nat | k <= n ensures Before(pages, k) == Before(next, k) && (k < n ==> At(pages, k) == At(next, k)) {
    }
  }

  // ----- columns -----

  /** The first column that can take `n` more cards. */
  ghost function FirstFit<T>(cards: seq<Placed<T>>, n: nat): Option<nat> {
    if CountIn(cards, 0) + n <= BOARD_ROWS then Some(0)
    else if CountIn(cards, 1) + n <= BOARD_ROWS then Some(1)
    else None
  }

  /** The first column with a free row. */
  ghost function FirstRoom<T>(cards: seq<Placed<T>>): nat {
    if CountIn(cards, 0) < BOARD_ROWS then 0 else 1
  }

  /**
   * The column of card `k` of a group of `n` cards that starts at card `s`:
   * the first column that takes the whole group on the page it starts on, and
   * otherwise the first with a free row.
   */
  ghost function ColumnRule<T>(pages: seq<Page<T>>, s: nat, n: nat, k: nat): nat {
    match FirstFit(Before(pages, s), n)
    case Some(c) => c
    case None => FirstRoom(Before(pages, k))
  }

  /** Card `j` of a group starting at card `s` sits where the packing contract puts it. */
  ghost predicate PlacedRight<T(!new)>(pages: seq<Page<T>>, group: seq<T>, s: nat, j: nat)
    requires j < |group|
  {
    var k := s + j;
    && At(pages, k).Some?
    && At(pages, k).value.card == group[j]
    && (At(pages, k).value.continuation <==> k % 12 == 0 && j > 0)
    && At(pages, k).value.column == ColumnRule(pages, s, |group|, k)
  }

  lemma PlacedStays<T(!new)>(a: seq<Page<T>>, b: seq<Page<T>>, n: nat, group: seq<T>, s: nat, j: nat)
    requires SameCards(a, b, n) && j < |group| && s + j < n && PlacedRight(a, group, s, j)
    ensures PlacedRight(b, group, s, j)
  {
  }

  /** The first column the whole group fits, as the page's counters see it. */
  method FindFit(used: seq<nat>, n: nat) returns (fit: Option<nat>)
    requires |used| == BOARD_COLUMNS
    ensures fit == if used[0] + n <= BOARD_ROWS then Some(0) else if used[1] + n <= BOARD_ROWS then Some(1) else None
  {
    for c := 0 to |used|
      invariant forall i :: 0 <= i < c ==> used[i] + n > BOARD_ROWS
    {
      if used[c] + n <= BOARD_ROWS {
        return Some(c);
      }
    }
    fit := None;
  }

  lemma LastPage<T>(pages: seq<Page<T>>, n: nat)
    requires Filled(pages, n) && |pages| == n / 12 + 1
    ensures Before(pages, n) == pages[|pages| - 1].cards
  {
    assert |pages[|pages| - 1].cards| == n % 12;
    assert pages[n / 12].cards[..n % 12] == pages[n / 12].cards;
  }

  ghost predicate FittedCard<T(!new)>(pages: seq<Page<T>>, group: seq<T>, s: nat, fit: nat, j: nat)
    requires j < |group|
  {
    && At(pages, s + j).Some? && At(pages, s + j).value.card == group[j] && At(pages, s + j).value.column == fit
    && !At(pages, s + j).value.continuation && (s + j) % 12 == s % 12 + j
  }

  ghost predicate PouredCard<T(!new)>(pages: seq<Page<T>>, group: seq<T>, s: nat, j: nat)
    requires j < |group|
  {
    && At(pages, s + j).Some? && At(pages, s + j).value.card == group[j]
    && At(pages, s + j).value.column == FirstRoom(Before(pages, s + j))
    && (At(pages, s + j).value.continuation <==> (s + j) % 12 == 0 && j > 0)
  }

  lemma FittedStays<T(!new)>(a: seq<Page<T>>, b: seq<Page<T>>, n: nat, group: seq<T>, s: nat, fit: nat, j: nat)
    requires SameCards(a, b, n) && j < |group| && s + j < n && FittedCard(a, group, s, fit, j)
    ensures FittedCard(b, group, s, fit, j)
  {
  }

  lemma PouredStays<T(!new)>(a: seq<Page<T>>, b: seq<Page<T>>, n: nat, group: seq<T>, s: nat, j: nat)
    requires SameCards(a, b, n) && j < |group| && s + j < n && PouredCard(a, group, s, j)
    ensures PouredCard(b, group, s, j)
  {
  }

  ghost predicate AllFitted<T(!new)>(pages: seq<Page<T>>, group: seq<T>, s: nat, fit: nat, n: nat) {
    n <= |group| && forall j :: 0 <= j < n ==> FittedCard(pages, group, s, fit, j)
  }

  ghost predicate AllPoured<T(!new)>(pages: seq<Page<T>>, group: seq<T>, s: nat, n: nat) {
    n <= |group| && forall j :: 0 <= j < n ==> PouredCard(pages, group, s, j)
  }

  /** A group that fits column `fit` of the open page. */
  method PlaceFitting<T(!new)>(before: seq<Page<T>>, ghost s: nat, group: seq<T>, fit: nat)
    returns (pages: seq<Page<T>>)
    requires HasRoom(before, s, fit) && group != [] && Used(Last(before), fit) + |group| <= BOARD_ROWS
    ensures Packed(pages, s + |group|) && SameCards(before, pages, s)
    ensures AllFitted(pages, group, s, fit, |group|)
  {
    pages := before;
    for j := 0 to |group|
      invariant Filled(pages, s + j) && SameCards(before, pages, s)
      invariant |pages| == s / 12 + 1 && (j > 0 ==> Packed(pages, s + j))
      invariant Used(Last(pages), fit) + |group| - j <= BOARD_ROWS
      invariant AllFitted(pages, group, s, fit, j)
    {
      pages := FitOne(pages, s, group, fit, j);
    }
  }

  method FitOne<T(!new)>(before: seq<Page<T>>, ghost s: nat, group: seq<T>, fit: nat, j: nat)
    returns (pages: seq<Page<T>>)
    requires j < |group| && Filled(before, s + j) && |before| == s / 12 + 1 && fit < BOARD_COLUMNS
    requires Used(Last(before), fit) < BOARD_ROWS && AllFitted(before, group, s, fit, j)
    ensures Packed(pages, s + j + 1) && |pages| == |before| && SameCards(before, pages, s + j)
    ensures Used(Last(pages), fit) == Used(Last(before), fit) + 1 && AllFitted(pages, group, s, fit, j + 1)
  {
    FitRoom(before, s, j, fit);
    pages := PutNext(before, s + j, fit, group[j], false);
    FitStep(before, pages, group, s, fit, j);
  }

  lemma FitStep<T(!new)>(was: seq<Page<T>>, pages: seq<Page<T>>, group: seq<T>, s: nat, fit: nat, j: nat)
    requires j < |group| && SameCards(was, pages, s + j) && AllFitted(was, group, s, fit, j)
    requires PutAt(pages, s + j, fit, group[j], false) && (s + j) % 12 == s % 12 + j
    ensures AllFitted(pages, group, s, fit, j + 1)
  {
    forall i | 0 <= i < j ensures FittedCard(pages, group, s, fit, i) {
      FittedStays(was, pages, s + j, group, s, fit, i);
    }
  }

  /** While a column of the page has room the page is the same. */
  lemma FitRoom<T>(pages: seq<Page<T>>, s: nat, j: nat, c: nat)
    requires Filled(pages, s + j) && |pages| == s / 12 + 1
    requires c < BOARD_COLUMNS && Used(Last(pages), c) < BOARD_ROWS
    ensures HasRoom(pages, s + j, c) && (s + j) / 12 == s / 12 && (s + j) % 12 == s % 12 + j
  {
    assert |Last(pages).cards| < 12;
    assert |Last(pages).cards| == Share(s + j, s / 12);
  }

  /** The search position within the open page. */
  ghost predicate Cursor<T>(pages: seq<Page<T>>, n: nat, column: nat) {
    Filled(pages, n) && pages != [] && column < BOARD_COLUMNS && FullTo(Last(pages), column)
  }

  /** With both columns full the page is, and a new one may be opened. */
  lemma OpenNext<T(!new)>(pages: seq<Page<T>>, n: nat)
    requires Filled(pages, n) && pages != [] && FullTo(Last(pages), BOARD_COLUMNS)
    ensures Cursor(pages + [Blank()], n, 0) && SameCards(pages, pages + [Blank()], n)
    ensures Last(pages).cards != []
  {
    assert Used(Last(pages), 0) == 6 && Used(Last(pages), 1) == 6;
    assert |Last(pages).cards| == 12 == Share(n, |pages| - 1);
    BlankSame(pages, n);
  }

  lemma RoomFound<T>(pages: seq<Page<T>>, n: nat, column: nat)
    requires Cursor(pages, n, column) && Used(Last(pages), column) < BOARD_ROWS
    ensures HasRoom(pages, n, column)
  {
    assert |Last(pages).cards| < 12;
  }

  lemma RoomIsFirst<T>(pages: seq<Page<T>>, n: nat, column: nat)
    requires Cursor(pages, n, column) && HasRoom(pages, n, column)
    ensures column == FirstRoom(Before(pages, n)) && (Last(pages).cards == [] <==> n % 12 == 0)
  {
    LastPage(pages, n);
    assert PageOk(Last(pages)) && Used(Last(pages), 0) == CountIn(Last(pages).cards, 0);
    assert column == 1 ==> Used(Last(pages), 0) == BOARD_ROWS;
  }

  lemma NextColumn<T>(pages: seq<Page<T>>, n: nat, column: nat)
    requires Cursor(pages, n, column) && Used(Last(pages), column) >= BOARD_ROWS
    ensures FullTo(Last(pages), column + 1)
  {
    assert PageOk(Last(pages));
  }

  /** Advance to the first column with a free row, opening a page when the current one is full. */
  method FindRoom<T(!new)>(before: seq<Page<T>>, ghost n: nat, from: nat) returns (pages: seq<Page<T>>, column: nat)
    requires Cursor(before, n, from)
    ensures Cursor(pages, n, column) && Used(Last(pages), column) < BOARD_ROWS
    ensures SameCards(before, pages, n)
  {
    pages, column := before, from;
    while Used(Last(pages), column) >= BOARD_ROWS
      invariant Cursor(pages, n, column)
      invariant SameCards(before, pages, n)
      decreases if Last(pages).cards == [] then 0 else BOARD_COLUMNS - column
    {
      NextColumn(pages, n, column);
      column := column + 1;
      if column >= BOARD_COLUMNS {
        OpenNext(pages, n);
        pages, column := pages + [Blank()], 0;
      }
    }
  }

  /** A group that fits no column of the open page pours into the free rows, page after page. */
  method Pour<T(!new)>(before: seq<Page<T>>, ghost s: nat, group: seq<T>) returns (pages: seq<Page<T>>)
    requires Cursor(before, s, 0) && group != []
    ensures Packed(pages, s + |group|) && SameCards(before, pages, s)
    ensures AllPoured(pages, group, s, |group|)
  {
    pages := before;
    var placedAny := false;
    var column: nat := 0;
    for j := 0 to |group|
      invariant Cursor(pages, s + j, column) && placedAny == (j > 0)
      invariant j > 0 ==> |pages| == (s + j + 11) / 12
      invariant SameCards(before, pages, s) && AllPoured(pages, group, s, j)
    {
      pages, column := PourOne(pages, s, group, j, column, placedAny);
      placedAny := true;
    }
  }

  method PourOne<T(!new)>(before: seq<Page<T>>, ghost s: nat, group: seq<T>, j: nat, from: nat, placedAny: bool)
    returns (pages: seq<Page<T>>, column: nat)
    requires j < |group| && Cursor(before, s + j, from) && AllPoured(before, group, s, j) && placedAny == (j > 0)
    ensures Cursor(pages, s + j + 1, column) && |pages| == (s + j + 12) / 12
    ensures SameCards(before, pages, s + j) && AllPoured(pages, group, s, j + 1)
  {
    pages, column := PutInRoom(before, s + j, from, group[j], placedAny);
    PourStep(before, pages, group, s, j, column);
  }

  /** The next card in the first free row; a page opened for it mid-group is a page break. */
  method PutInRoom<T(!new)>(before: seq<Page<T>>, ghost n: nat, from: nat, card: T, placedAny: bool)
    returns (pages: seq<Page<T>>, column: nat)
    requires Cursor(before, n, from)
    ensures Cursor(pages, n + 1, column) && |pages| == (n + 12) / 12 && SameCards(before, pages, n)
    ensures column == FirstRoom(Before(before, n))
    ensures PutAt(pages, n, column, card, placedAny && n % 12 == 0)
  {
    var roomy;
    roomy, column := FindFirstRoom(before, n, from);
    pages := PutNext(roomy, n, column, card, placedAny && Last(roomy).cards == []);
    SameTwice(before, roomy, pages, n);
  }

  method FindFirstRoom<T(!new)>(before: seq<Page<T>>, ghost n: nat, from: nat)
    returns (pages: seq<Page<T>>, column: nat)
    requires Cursor(before, n, from)
    ensures HasRoom(pages, n, column) && FullTo(Last(pages), column) && SameCards(before, pages, n)
    ensures column == FirstRoom(Before(before, n)) && (Last(pages).cards == [] <==> n % 12 == 0)
  {
    pages, column := FindRoom(before, n, from);
    RoomFound(pages, n, column);
    RoomIsFirst(pages, n, column);
  }

  lemma SameTwice<T(!new)>(a: seq<Page<T>>, b: seq<Page<T>>, c: seq<Page<T>>, n: nat)
    requires SameCards(a, b, n) && SameCards(b, c, n)
    ensures SameCards(a, c, n) && Before(c, n) == Before(a, n)
  {
  }

  /** One poured card: the ones before it stay, and it took the first free row. */
  lemma PourStep<T(!new)>(was: seq<Page<T>>, pages: seq<Page<T>>, group: seq<T>, s: nat, j: nat, column: nat)
    requires j < |group| && SameCards(was, pages, s + j) && AllPoured(was, group, s, j)
    requires column == FirstRoom(Before(was, s + j))
    requires PutAt(pages, s + j, column, group[j], j > 0 && (s + j) % 12 == 0)
    ensures AllPoured(pages, group, s, j + 1)
  {
    forall i | 0 <= i < j ensures PouredCard(pages, group, s, i) {
      PouredStays(was, pages, s + j, group, s, i);
    }
  }

  // ----- all groups -----

  ghost function Flat<T>(groups: seq<seq<T>>): seq<T> {
    if groups == [] then [] else Flat(groups[..|groups| - 1]) + groups[|groups| - 1]
  }

  /** Where group `g` begins in the sequence of all cards. */
  ghost function Start<T>(groups: seq<seq<T>>, g: nat): nat
    requires g <= |groups|
  {
    |Flat(groups[..g])|
  }

  lemma StartStep<T>(groups: seq<seq<T>>, g: nat)
    requires g < |groups|
    ensures Start(groups, g + 1) == Start(groups, g) + |groups[g]|
    ensures Flat(groups[..g + 1]) == Flat(groups[..g]) + groups[g]
  {
    assert groups[..g + 1][..g] == groups[..g];
  }

  /** One group on the board. */
  method PackGroup<T(!new)>(before: seq<Page<T>>, ghost s: nat, group: seq<T>) returns (pages: seq<Page<T>>)
    requires Packed(before, s)
    ensures Packed(pages, s + |group|) && SameCards(before, pages, s)
    ensures forall j :: 0 <= j < |group| ==> PlacedRight(pages, group, s, j)
  {
    if group == [] {
      return before;
    }
    if before == [] {
      BlankSame(before, s);
    }
    pages := PlaceGroup(if before == [] then [Blank()] else before, s, group);
  }

  method PlaceGroup<T(!new)>(open: seq<Page<T>>, ghost s: nat, group: seq<T>) returns (pages: seq<Page<T>>)
    requires Cursor(open, s, 0) && group != []
    ensures Packed(pages, s + |group|) && SameCards(open, pages, s)
    ensures forall j :: 0 <= j < |group| ==> PlacedRight(pages, group, s, j)
  {
    OpenFit(open, s, |group|);
    var fit := FindFit(Last(open).used, |group|);
    if fit.Some? {
      pages := PlaceFitting(open, s, group, fit.value);
      FitRight(open, pages, group, s, fit.value);
    } else {
      pages := Pour(open, s, group);
      PourRight(open, pages, group, s);
    }
  }

  /** The counters decide the fit, unless the open page is full and the next card starts a new one. */
  lemma OpenFit<T>(open: seq<Page<T>>, s: nat, n: nat)
    requires Cursor(open, s, 0) && n > 0
    ensures |Last(open).used| == BOARD_COLUMNS
    ensures forall c :: 0 <= c < BOARD_COLUMNS && Used(Last(open), c) + n <= BOARD_ROWS ==> HasRoom(open, s, c)
    ensures |open| == s / 12 + 1 ==> Before(open, s) == Last(open).cards
    ensures |open| != s / 12 + 1 ==> s % 12 == 0 && Before(open, s) == []
    ensures forall c :: 0 <= c < BOARD_COLUMNS ==> Used(Last(open), c) == CountIn(Last(open).cards, c)
  {
    forall c | 0 <= c < BOARD_COLUMNS && Used(Last(open), c) + n <= BOARD_ROWS ensures HasRoom(open, s, c) {
      assert |Last(open).cards| < 12;
    }
    if |open| == s / 12 + 1 {
      LastPage(open, s);
    }
  }

  lemma FitRight<T(!new)>(open: seq<Page<T>>, pages: seq<Page<T>>, group: seq<T>, s: nat, fit: nat)
    requires SameCards(open, pages, s) && FirstFit(Before(open, s), |group|) == Some(fit)
    requires AllFitted(pages, group, s, fit, |group|)
    ensures forall j :: 0 <= j < |group| ==> PlacedRight(pages, group, s, j)
  {
    assert Before(pages, s) == Before(open, s);
    forall j | 0 <= j < |group| ensures PlacedRight(pages, group, s, j) {
      assert FittedCard(pages, group, s, fit, j);
    }
  }

  /** Pouring onto a fresh page is first fit too. */
  lemma PourRight<T(!new)>(open: seq<Page<T>>, pages: seq<Page<T>>, group: seq<T>, s: nat)
    requires SameCards(open, pages, s) && AllPoured(pages, group, s, |group|)
    requires FirstFit(Before(open, s), |group|) == None || (s % 12 == 0 && Before(open, s) == [])
    ensures forall j :: 0 <= j < |group| ==> PlacedRight(pages, group, s, j)
  {
    assert Before(pages, s) == Before(open, s);
    forall j | 0 <= j < |group| ensures PlacedRight(pages, group, s, j) {
      assert PouredCard(pages, group, s, j);
      if FirstFit(Before(open, s), |group|).Some? {
        FreshColumn(pages, group, s, j);
      }
    }
  }

  lemma {:induction false} FreshColumn<T(!new)>(pages: seq<Page<T>>, group: seq<T>, s: nat, j: nat)
    requires s % 12 == 0 && j < |group| <= BOARD_ROWS
    requires AllPoured(pages, group, s, |group|)
    ensures CountIn(Before(pages, s + j), 0) == j && At(pages, s + j).Some? && At(pages, s + j).value.column == 0
  {
    assert PouredCard(pages, group, s, j);
    if j > 0 {
      FreshColumn(pages, group, s, j - 1);
      assert (s + j) / 12 == s / 12 == (s + j - 1) / 12 && (s + j) % 12 == j && (s + j - 1) % 12 == j - 1;
      var cards := pages[s / 12].cards;
      assert Before(pages, s + j) == cards[..j] && Before(pages, s + j - 1) == cards[..j - 1];
      assert cards[..j][..j - 1] == cards[..j - 1];
    }
  }

  /** Every card of every group, in order, where the contract puts it. */
  ghost predicate BoardRight<T(!new)>(pages: seq<Page<T>>, groups: seq<seq<T>>) {
    && Packed(pages, |Flat(groups)|)
    && forall g, j :: 0 <= g < |groups| && 0 <= j < |groups[g]| ==> PlacedRight(pages, groups[g], Start(groups, g), j)
  }

  method PackBoard<T(!new)>(groups: seq<seq<T>>) returns (pages: seq<Page<T>>)
    ensures BoardRight(pages, groups)
  {
    pages := [];
    for n := 0 to |groups|
      invariant Packed(pages, Start(groups, n))
      invariant forall g, j :: 0 <= g < n && 0 <= j < |groups[g]| ==> PlacedRight(pages, groups[g], Start(groups, g), j)
    {
      ghost var was := pages;
      StartStep(groups, n);
      pages := PackGroup(pages, Start(groups, n), groups[n]);
      PackStep(was, pages, groups, n);
    }
    TakeAll(groups);
  }

  /** Placing group `n` leaves the earlier groups where they are. */
  lemma PackStep<T(!new)>(was: seq<Page<T>>, pages: seq<Page<T>>, groups: seq<seq<T>>, n: nat)
    requires n < |groups| && SameCards(was, pages, Start(groups, n))
    requires forall g, j :: 0 <= g < n && 0 <= j < |groups[g]| ==> PlacedRight(was, groups[g], Start(groups, g), j)
    requires forall j :: 0 <= j < |groups[n]| ==> PlacedRight(pages, groups[n], Start(groups, n), j)
    ensures forall g, j :: 0 <= g <= n && 0 <= j < |groups[g]| ==> PlacedRight(pages, groups[g], Start(groups, g), j)
  {
    forall g, j | 0 <= g < n && 0 <= j < |groups[g]| ensures PlacedRight(pages, groups[g], Start(groups, g), j) {
      EndsBy(groups, g, n);
      PlacedStays(was, pages, Start(groups, n), groups[g], Start(groups, g), j);
    }
  }

  lemma {:induction false} EndsBy<T>(groups: seq<seq<T>>, g: nat, n: nat)
    requires g < n <= |groups|
    ensures Start(groups, g) + |groups[g]| <= Start(groups, n)
    decreases n
  {
    StartStep(groups, n - 1);
    if g < n - 1 {
      EndsBy(groups, g, n - 1);
    }
  }

  // ----- what the contract amounts to -----

  lemma {:induction false} FlatCard<T>(groups: seq<seq<T>>, n: nat, k: nat) returns (g: nat, j: nat)
    requires n <= |groups| && k < Start(groups, n)
    ensures g < n && j < |groups[g]| && k == Start(groups, g) + j && Flat(groups[..n])[k] == groups[g][j]
    decreases n
  {
    StartStep(groups, n - 1);
    if k < Start(groups, n - 1) {
      g, j := FlatCard(groups, n - 1, k);
    } else {
      g, j := n - 1, k - Start(groups, n - 1);
    }
  }

  /** Exactly the cards of the groups are on the board, the k-th of them on page k / 12. */
  lemma EveryCardOnce<T(!new)>(pages: seq<Page<T>>, groups: seq<seq<T>>)
    requires BoardRight(pages, groups)
    ensures |pages| == (|Flat(groups)| + 11) / 12
    ensures forall p :: 0 <= p < |pages| - 1 ==> |pages[p].cards| == 12
    ensures forall k: nat :: At(pages, k).Some? <==> k < |Flat(groups)|
    ensures forall k: nat :: k < |Flat(groups)| ==> At(pages, k).value.card == Flat(groups)[k]
  {
    forall k: nat | k < |Flat(groups)| ensures At(pages, k).Some? && At(pages, k).value.card == Flat(groups)[k] {
      CardPlaced(pages, groups, k);
    }
  }

  lemma CardPlaced<T(!new)>(pages: seq<Page<T>>, groups: seq<seq<T>>, k: nat)
    requires BoardRight(pages, groups) && k < |Flat(groups)|
    ensures At(pages, k).Some? && At(pages, k).value.card == Flat(groups)[k]
  {
    TakeAll(groups);
    var g, j := FlatCard(groups, |groups|, k);
    GroupCard(pages, groups, g, j);
  }

  lemma GroupCard<T(!new)>(pages: seq<Page<T>>, groups: seq<seq<T>>, g: nat, j: nat)
    requires BoardRight(pages, groups) && g < |groups| && j < |groups[g]|
    ensures At(pages, Start(groups, g) + j).Some? && At(pages, Start(groups, g) + j).value.card == groups[g][j]
  {
    assert PlacedRight(pages, groups[g], Start(groups, g), j);
  }

  /** Card `a`'s cell precedes card `b`'s in page, column, row order. */
  ghost predicate CellBefore<T>(pages: seq<Page<T>>, a: nat, b: nat) {
    At(pages, a).Some? && At(pages, b).Some? && Earlier(a / 12, At(pages, a).value, b / 12, At(pages, b).value)
  }

  predicate Earlier<T>(p: nat, x: Placed<T>, q: nat, y: Placed<T>) {
    p < q || (p == q && (x.column < y.column || (x.column == y.column && x.row < y.row)))
  }

  lemma PageOrder(a: nat, b: nat)
    requires a < b
    ensures a / 12 < b / 12 || (a / 12 == b / 12 && a % 12 < b % 12)
  {
  }

  /** Card `k` of a group of `n` cards starting at card `s` is in the column the rule names. */
  ghost predicate InColumn<T>(pages: seq<Page<T>>, s: nat, n: nat, k: nat) {
    At(pages, k).Some? && At(pages, k).value.column == ColumnRule(pages, s, n, k)
  }

  /** On one page, the later of two cards is not in an earlier column. */
  ghost predicate ColumnsInOrder<T>(pages: seq<Page<T>>, a: nat, b: nat) {
    && At(pages, a).Some? && At(pages, b).Some?
    && (a / 12 == b / 12 ==> At(pages, a).value.column <= At(pages, b).value.column)
  }

  /** Later cards of a group never go to an earlier column of the page. */
  lemma ColumnsGrow<T>(pages: seq<Page<T>>, s: nat, n: nat, a: nat, b: nat)
    requires InColumn(pages, s, n, a) && InColumn(pages, s, n, b) && a < b
    ensures ColumnsInOrder(pages, a, b)
  {
    if a / 12 == b / 12 {
      FirstColumnFills(pages, a, b);
    }
  }

  lemma FirstColumnFills<T>(pages: seq<Page<T>>, a: nat, b: nat)
    requires At(pages, a).Some? && At(pages, b).Some? && a < b && a / 12 == b / 12
    ensures FirstRoom(Before(pages, a)) <= FirstRoom(Before(pages, b))
  {
    PageOrder(a, b);
    CountGrows(pages[a / 12].cards, a % 12, b % 12, 0);
  }

  lemma RowsGrow<T>(pages: seq<Page<T>>, a: nat, b: nat)
    requires At(pages, a).Some? && At(pages, b).Some? && a < b && a / 12 == b / 12 && PageOk(pages[a / 12])
    ensures At(pages, a).value.column == At(pages, b).value.column ==> At(pages, a).value.row < At(pages, b).value.row
  {
    PageOrder(a, b);
    PageCells(pages[a / 12]);
  }

  lemma LaterRow<T>(pages: seq<Page<T>>, a: nat, b: nat)
    requires ColumnsInOrder(pages, a, b) && a < b && PageOk(pages[a / 12])
    ensures CellBefore(pages, a, b)
  {
    PageOrder(a, b);
    if a / 12 == b / 12 {
      RowsGrow(pages, a, b);
    }
  }

  lemma PlacedColumn<T(!new)>(pages: seq<Page<T>>, groups: seq<seq<T>>, g: nat, a: nat)
    requires BoardRight(pages, groups) && g < |groups| && Start(groups, g) <= a < Start(groups, g) + |groups[g]|
    ensures InColumn(pages, Start(groups, g), |groups[g]|, a)
  {
    assert PlacedRight(pages, groups[g], Start(groups, g), a - Start(groups, g));
  }

  lemma GroupColumns<T(!new)>(pages: seq<Page<T>>, groups: seq<seq<T>>, g: nat, a: nat, b: nat)
    requires BoardRight(pages, groups) && g < |groups|
    requires Start(groups, g) <= a < b < Start(groups, g) + |groups[g]|
    ensures ColumnsInOrder(pages, a, b)
  {
    PlacedColumn(pages, groups, g, a);
    PlacedColumn(pages, groups, g, b);
    ColumnsGrow(pages, Start(groups, g), |groups[g]|, a, b);
  }

  lemma PageShownOk<T(!new)>(pages: seq<Page<T>>, groups: seq<seq<T>>, a: nat)
    requires BoardRight(pages, groups) && At(pages, a).Some?
    ensures PageOk(pages[a / 12])
  {
  }

  lemma CellsInOrder<T(!new)>(pages: seq<Page<T>>, groups: seq<seq<T>>, g: nat, a: nat, b: nat)
    requires BoardRight(pages, groups) && g < |groups|
    requires Start(groups, g) <= a < b < Start(groups, g) + |groups[g]|
    ensures CellBefore(pages, a, b)
  {
    GroupColumns(pages, groups, g, a, b);
    PageShownOk(pages, groups, a);
    LaterRow(pages, a, b);
  }

  /** Within a group, reading the board page by page and column by column meets the cards in order. */
  lemma GroupOrderKept<T(!new)>(pages: seq<Page<T>>, groups: seq<seq<T>>, g: nat, i: nat, j: nat)
    requires BoardRight(pages, groups) && g < |groups| && i < j < |groups[g]|
    ensures CellBefore(pages, Start(groups, g) + i, Start(groups, g) + j)
  {
    CellsInOrder(pages, groups, g, Start(groups, g) + i, Start(groups, g) + j);
  }

  /** The marker sits exactly on the first card of a page whose group began on an earlier page. */
  lemma ContinuationExactly<T(!new)>(pages: seq<Page<T>>, groups: seq<seq<T>>, g: nat, j: nat)
    requires BoardRight(pages, groups) && g < |groups| && j < |groups[g]|
    ensures var s := Start(groups, g);
            At(pages, s + j).Some?
            && (At(pages, s + j).value.continuation <==> (s + j) % 12 == 0 && s / 12 < (s + j) / 12)
  {
    assert PlacedRight(pages, groups[g], Start(groups, g), j);
  }
}
