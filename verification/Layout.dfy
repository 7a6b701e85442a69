/**
 Reading order of OCR blocks on a page: sort with a tolerance, cut into rows, sort the rows. Coordinates are
 exact reals. The library sort is a parameter: any rearrangement for the page sort, whose comparator may not
 be an order, and any left-sorted rearrangement for a row.
 */
module Layout {
  import opened Wrappers
  import opened Text

  const ROW_TOLERANCE := 0.015
  const COLUMN_GAP := 0.02
  const PAGE_BREAK := "\n\n--- PAGE BREAK ---\n\n"

  datatype Block = Block(text: string, x: real, y: real, w: real, h: real)

  datatype Item = Item(top: real, left: real, text: string, w: real)

  function Clamp01(v: real): (c: real)
    ensures 0.0 <= c <= 1.0
  {
    if v < 0.0 then 0.0 else if v > 1.0 then 1.0 else v
  }

  /** Vision's boxes start at the lower left; rows are counted from the top. */
  function Positioned(b: Block): Item { Item(Clamp01(1.0 - b.y - b.h), b.x, b.text, b.w) }

  function Items(blocks: seq<Block>, n: nat): seq<Item>
    requires n <= |blocks|
  {
    if n == 0 then []
    else Items(blocks, n - 1) + if TrimSpace(blocks[n - 1].text) == "" then [] else [Positioned(blocks[n - 1])]
  }

  // ---------------------------------------------------------------- the comparator

  predicate Near(a: Item, b: Item) { -ROW_TOLERANCE <= a.top - b.top <= ROW_TOLERANCE }

  /** The less function of the page sort. */
  predicate Before(a: Item, b: Item) { if Near(a, b) then a.left < b.left else a.top < b.top }

  ghost predicate NearTransitive(items: seq<Item>) {
    forall a, b, c | a in items && b in items && c in items && Near(a, b) && Near(b, c) :: Near(a, c)
  }

  /** On a page where nearness is transitive the comparator is the strict weak order a sort needs. */
  lemma BeforeIsStrictWeakOrder(items: seq<Item>, a: Item, b: Item, c: Item)
    requires NearTransitive(items) && a in items && b in items && c in items
    ensures !Before(a, a)
    ensures Before(a, b) && Before(b, c) ==> Before(a, c)
    ensures !Before(a, b) && !Before(b, a) && !Before(b, c) && !Before(c, b) ==> !Before(a, c) && !Before(c, a)
  {
    assert Near(a, b) && Near(b, c) ==> Near(a, c);
    assert Near(b, a) && Near(a, c) ==> Near(b, c);
    assert Near(a, c) && Near(c, b) ==> Near(a, b);
  }

  predicate Cycle(a: Item, b: Item, c: Item) { Before(a, b) && Before(b, c) && Before(c, a) }

  function At(top: real, left: real): Item { Item(top, left, "block", 0.0) }

  predicate TopsTransitive(ta: real, tb: real, tc: real) {
    var a, b, c := At(ta, 0.0), At(tb, 0.0), At(tc, 0.0);
    && (Near(a, b) && Near(b, c) ==> Near(a, c)) && (Near(b, a) && Near(a, c) ==> Near(b, c)) && (Near(a, c) && Near(c, b) ==> Near(a, b))
  }

  /**
   Otherwise the comparator can cycle: for three heights there are horizontal positions that make it run in a
   circle exactly when nearness is not transitive among the three.
   */
  lemma ComparatorCyclesExactly(ta: real, tb: real, tc: real)
    ensures (exists la: real, lb: real, lc: real {:trigger At(ta, la), At(tb, lb), At(tc, lc)} ::
               Cycle(At(ta, la), At(tb, lb), At(tc, lc)) || Cycle(At(tc, lc), At(tb, lb), At(ta, la)))
            <==> !TopsTransitive(ta, tb, tc)
  {
    if !TopsTransitive(ta, tb, tc) {
      assert Cycle(At(ta, 1.0), At(tb, 2.0), At(tc, 3.0)) || Cycle(At(tc, 3.0), At(tb, 2.0), At(ta, 1.0))
          || Cycle(At(ta, 2.0), At(tb, 3.0), At(tc, 1.0)) || Cycle(At(tc, 1.0), At(tb, 3.0), At(ta, 2.0))
          || Cycle(At(ta, 3.0), At(tb, 1.0), At(tc, 2.0)) || Cycle(At(tc, 2.0), At(tb, 1.0), At(ta, 3.0))
          || Cycle(At(ta, 3.0), At(tb, 2.0), At(tc, 1.0)) || Cycle(At(tc, 1.0), At(tb, 2.0), At(ta, 3.0))
          || Cycle(At(ta, 1.0), At(tb, 3.0), At(tc, 2.0)) || Cycle(At(tc, 2.0), At(tb, 3.0), At(ta, 1.0))
          || Cycle(At(ta, 2.0), At(tb, 1.0), At(tc, 3.0)) || Cycle(At(tc, 3.0), At(tb, 1.0), At(ta, 2.0));
    }
  }

  /** Three blocks on a page that the comparator runs around. */
  lemma ComparatorCycleExample()
    ensures Cycle(Item(0.02, 0.1, "C", 0.1), Item(0.01, 0.2, "B", 0.1), Item(0.0, 0.3, "A", 0.1))
  {
  }

  // ---------------------------------------------------------------- rows

  type Row = r: seq<Item> | r != [] witness [Item(0.0, 0.0, "", 0.0)]

  /** Each item joins the last row if it is near that row's first item, or opens a new one. */
  function Group(items: seq<Item>): (rows: seq<Row>)
    ensures rows == [] <==> items == []
  {
    if items == [] then []
    else
      var rows, item := Group(items[..|items| - 1]), items[|items| - 1];
      if rows != [] && Near(item, rows[|rows| - 1][0]) then rows[|rows| - 1 := rows[|rows| - 1] + [item]]
      else rows + [[item]]
  }

  method GroupRows(items: seq<Item>) returns (rows: seq<Row>)
    ensures rows == Group(items)
  {
    rows := [];
    for i := 0 to |items|
      invariant rows == Group(items[..i])
    {
      assert items[..i + 1][..i] == items[..i];
      if |rows| == 0 {
        rows := [[items[i]]];
      } else {
        var last := |rows| - 1;
        var difference := items[i].top - rows[last][0].top;
        if -ROW_TOLERANCE <= difference <= ROW_TOLERANCE {
          rows := rows[last := rows[last] + [items[i]]];
        } else {
          rows := rows + [[items[i]]];
        }
      }
    }
    assert items[..|items|] == items;
  }

  function Flatten(rows: seq<Row>): seq<Item> {
    if rows == [] then [] else Flatten(rows[..|rows| - 1]) + rows[|rows| - 1]
  }

  lemma {:induction false} FlattenOfGroup(items: seq<Item>)
    ensures Flatten(Group(items)) == items
  {
    hide Near;
    if items != [] {
      var before, item := items[..|items| - 1], items[|items| - 1];
      FlattenOfGroup(before);
      var rows, rows' := Group(before), Group(items);
      assert items == before + [item];
      if rows != [] && Near(item, rows[|rows| - 1][0]) {
        assert rows'[..|rows'| - 1] == rows[..|rows| - 1];
      } else {
        assert rows'[..|rows'| - 1] == rows;
      }
    }
  }

  /** The row's first item opened it; all its items are near that one. */
  predicate NearFirst(row: Row) { forall k | 0 <= k < |row| :: Near(row[k], row[0]) }

  lemma NearFirstExtended(row: Row, item: Item)
    requires NearFirst(row) && Near(item, row[0])
    ensures NearFirst(row + [item])
  {
  }

  /** Every row was opened by its first item, and the next row only when an item was too far from it. */
  predicate RowsOpened(rows: seq<Row>) {
    && (forall r | 0 <= r < |rows| :: NearFirst(rows[r]))
    && (forall r | 0 <= r < |rows| - 1 :: !Near(rows[r + 1][0], rows[r][0]))
  }

  lemma RowsOpenedExtended(rows: seq<Row>, item: Item)
    requires RowsOpened(rows) && rows != []
    ensures var last := |rows| - 1;
            RowsOpened(if Near(item, rows[last][0]) then rows[last := rows[last] + [item]] else rows + [[item]])
  {
    var last := |rows| - 1;
    assert NearFirst([item]);
    if Near(item, rows[last][0]) {
      NearFirstExtended(rows[last], item);
    }
    hide Near, NearFirst;
  }

  /** Every item lands in exactly one row, in order, and within tolerance of the item that opened the row. */
  lemma {:induction false} GroupKeepsItems(items: seq<Item>)
    ensures Flatten(Group(items)) == items && RowsOpened(Group(items))
  {
    FlattenOfGroup(items);
    if items != [] {
      var before, item := items[..|items| - 1], items[|items| - 1];
      GroupKeepsItems(before);
      if before != [] {
        RowsOpenedExtended(Group(before), item);
        hide Near, Flatten, RowsOpened;
      } else {
        assert Group(items) == [[item]];
      }
    }
  }

  // ---------------------------------------------------------------- reading order

  /** What a sort delivers when the comparator is a strict weak order. */
  predicate SortedByComparator(items: seq<Item>) { forall i, j | 0 <= i < j < |items| :: !Before(items[j], items[i]) }

  predicate Above(a: Item, b: Item) { a.top < b.top && !Near(a, b) }

  predicate AllAbove(row: seq<Item>, other: seq<Item>) { forall a, b | a in row && b in other :: Above(a, b) }

  predicate AllNear(row: seq<Item>) { forall a, b | a in row && b in row :: Near(a, b) }

  predicate RowsDescend(rows: seq<Row>) {
    && (forall r, q | 0 <= r < q < |rows| :: AllAbove(rows[r], rows[q]))
    && (forall r | 0 <= r < |rows| :: AllNear(rows[r]))
  }

  lemma {:induction false} InFlatten(rows: seq<Row>, r: nat, a: Item)
    requires r < |rows| && a in rows[r]
    ensures a in Flatten(rows)
  {
    if r < |rows| - 1 {
      InFlatten(rows[..|rows| - 1], r, a);
    }
  }

  lemma Transit(items: seq<Item>, a: Item, b: Item, c: Item)
    requires NearTransitive(items) && a in items && b in items && c in items && Near(a, b) && Near(b, c)
    ensures Near(a, c)
  {
  }

  /** An item that the sort left behind `a` is above it nowhere, and below it unless they are near. */
  lemma NotNearIsAbove(a: Item, item: Item)
    requires !Before(item, a) && !Near(a, item)
    ensures Above(a, item)
  {
  }

  /** Row `row` ends before the new item's row: none of its items is near the new one. */
  lemma EarlierRowAbove(items: seq<Item>, row: Row, opener: Item, item: Item)
    requires NearTransitive(items) && item in items && opener in items && forall a | a in row :: a in items && !Before(item, a)
    requires !Before(item, opener)
    requires if Near(item, opener) then AllAbove(row, [opener]) else AllAbove(row, [opener]) || (AllNear(row) && opener in row)
    ensures forall a | a in row :: Above(a, item)
  {
    forall a | a in row
      ensures Above(a, item)
    {
      assert opener in [opener];
      assert AllAbove(row, [opener]) ==> Above(a, opener);
      assert AllNear(row) && opener in row ==> Near(opener, a);
      if !Near(item, opener) {
        NotNearIsAbove(opener, item);
      }
      if !Near(a, item) {
        NotNearIsAbove(a, item);
      } else if Near(item, opener) {
        Transit(items, a, item, opener);
      } else if !AllAbove(row, [opener]) {
        Transit(items, opener, a, item);
      }
      hide NearTransitive, AllAbove, AllNear;
    }
  }

  lemma AboveBoth(row: Row, last: Row, item: Item)
    requires AllAbove(row, last) && forall a | a in row :: Above(a, item)
    ensures AllAbove(row, last + [item]) && AllAbove(row, [item]) && AllAbove(row, [last[0]])
  {
    hide Above;
  }

  lemma NearBoth(items: seq<Item>, last: Row, item: Item)
    requires NearTransitive(items) && item in items && (forall a | a in last :: a in items) && AllNear(last) && Near(item, last[0])
    ensures AllNear(last + [item])
  {
    forall a | a in last
      ensures Near(item, a) && Near(a, item)
    {
      Transit(items, item, last[0], a);
    }
    assert Near(item, item);
    hide Near, NearTransitive;
  }

  lemma NearItself(item: Item)
    ensures AllNear([item])
  {
  }

  /** With transitive nearness the rows are exactly the classes of near items, from top to bottom. */
  lemma {:induction false} GroupDescends(items: seq<Item>)
    requires NearTransitive(items) && SortedByComparator(items)
    ensures RowsDescend(Group(items))
  {
    hide Near, Before, NearTransitive, RowsDescend, Flatten, SortedByComparator;
    if items == [] {
      NoRowsDescend();
    } else {
      var before, item := items[..|items| - 1], items[|items| - 1];
      SortedPrefix(items);
      GroupDescends(before);
      FlattenOfGroup(before);
      var rows := Group(before);
      if rows == [] {
        OneRowDescends(item);
        assert Group(items) == [[item]];
      } else {
        forall q, a | 0 <= q < |rows| && a in rows[q]
          ensures a in items && !Before(item, a)
        {
          RowInItems(rows, q, items, before);
        }
        AddedItemDescends(items, rows, item);
      }
    }
  }

  lemma NoRowsDescend()
    ensures RowsDescend([])
  {
  }

  lemma OneRowDescends(item: Item)
    ensures RowsDescend([[item]])
  {
    NearItself(item);
    hide AllNear;
  }

  lemma AddedItemDescends(items: seq<Item>, rows: seq<Row>, item: Item)
    requires NearTransitive(items) && item in items && rows != [] && RowsDescend(rows)
    requires forall q, a | 0 <= q < |rows| && a in rows[q] :: a in items && !Before(item, a)
    ensures var last := |rows| - 1;
            RowsDescend(if Near(item, rows[last][0]) then rows[last := rows[last] + [item]] else rows + [[item]])
  {
    hide Near, Before, NearTransitive, AllAbove, AllNear;
    var last := |rows| - 1;
    NearItself(item);
    forall r | 0 <= r < |rows|
      ensures r < last ==> AllAbove(rows[r], rows[last] + [item]) && AllAbove(rows[r], [item])
      ensures !Near(item, rows[last][0]) ==> AllAbove(rows[r], [item])
    {
      AddedItemBelow(items, rows, r, item);
    }
    if Near(item, rows[last][0]) {
      NearBoth(items, rows[last], item);
    }
  }

  lemma RowInItems(rows: seq<Row>, r: nat, items: seq<Item>, before: seq<Item>)
    requires r < |rows| && Flatten(rows) == before && before <= items && items != []
    requires forall a | a in before :: !Before(items[|items| - 1], a)
    ensures forall a | a in rows[r] :: a in items && !Before(items[|items| - 1], a)
  {
    hide Before;
    forall a | a in rows[r]
      ensures a in before
    {
      InFlatten(rows, r, a);
    }
  }

  lemma AddedItemBelow(items: seq<Item>, rows: seq<Row>, r: nat, item: Item)
    requires NearTransitive(items) && item in items && rows != [] && RowsDescend(rows) && r < |rows|
    requires forall q, a | 0 <= q < |rows| && a in rows[q] :: a in items && !Before(item, a)
    ensures r < |rows| - 1 ==> AllAbove(rows[r], rows[|rows| - 1] + [item]) && AllAbove(rows[r], [item])
    ensures !Near(item, rows[|rows| - 1][0]) ==> AllAbove(rows[r], [item])
  {
    var last := |rows| - 1;
    var opener := rows[last][0];
    assert opener in rows[last];
    if r < last {
      assert AllAbove(rows[r], rows[last]);
      assert AllAbove(rows[r], [opener]);
      hide Near, Before, NearTransitive, Above, RowsDescend;
      EarlierRowAbove(items, rows[r], opener, item);
      AboveBoth(rows[r], rows[last], item);
    } else if !Near(item, opener) {
      hide Near, Before, NearTransitive, Above;
      EarlierRowAbove(items, rows[last], opener, item);
    }
  }

  lemma SortedPrefix(items: seq<Item>)
    requires items != [] && NearTransitive(items) && SortedByComparator(items)
    ensures NearTransitive(items[..|items| - 1]) && SortedByComparator(items[..|items| - 1])
    ensures forall a {:trigger a in items[..|items| - 1]} | a in items[..|items| - 1] :: !Before(items[|items| - 1], a)
  {
    hide Near, Before;
    assert forall a | a in items[..|items| - 1] :: a in items;
  }

  predicate LeftSorted(row: seq<Item>) { forall i, j | 0 <= i < j < |row| :: row[i].left <= row[j].left }

  predicate ReadsBefore(a: Item, b: Item) { Above(a, b) || (Near(a, b) && a.left <= b.left) }

  /** The page sort: some rearrangement, and the sorted one when the comparator is an order on the page. */
  ghost predicate PageSort(arrange: seq<Item> -> seq<Item>) {
    forall s {:trigger arrange(s)} ::
      multiset(arrange(s)) == multiset(s) && (NearTransitive(s) ==> SortedByComparator(arrange(s)))
  }

  ghost predicate RowSort(arrange: seq<Item> -> seq<Item>) {
    forall r {:trigger arrange(r)} :: multiset(arrange(r)) == multiset(r) && LeftSorted(arrange(r))
  }

  function Arranged(rows: seq<Row>, arrange: seq<Item> -> seq<Item>): (arranged: seq<Row>)
    requires RowSort(arrange)
    ensures |arranged| == |rows|
  {
    if rows == [] then []
    else
      var row := arrange(rows[|rows| - 1]);
      assert rows[|rows| - 1][0] in multiset(row);
      Arranged(rows[..|rows| - 1], arrange) + [row]
  }

  lemma ArrangeOne(row: Row, arrange: seq<Item> -> seq<Item>)
    requires RowSort(arrange)
    ensures multiset(arrange(row)) == multiset(row) && LeftSorted(arrange(row))
  {
  }

  lemma {:induction false} ArrangedRows(rows: seq<Row>, arrange: seq<Item> -> seq<Item>)
    requires RowSort(arrange)
    ensures forall r | 0 <= r < |rows| ::
              LeftSorted(Arranged(rows, arrange)[r]) && multiset(Arranged(rows, arrange)[r]) == multiset(rows[r])
    ensures multiset(Flatten(Arranged(rows, arrange))) == multiset(Flatten(rows))
  {
    hide LeftSorted, RowSort;
    if rows != [] {
      var init, row := rows[..|rows| - 1], arrange(rows[|rows| - 1]);
      ArrangeOne(rows[|rows| - 1], arrange);
      ArrangedRows(init, arrange);
      assert rows[|rows| - 1][0] in multiset(row);
      var arranged := Arranged(rows, arrange);
      assert arranged[..|rows| - 1] == Arranged(init, arrange) && arranged[|rows| - 1] == row;
    }
  }

  lemma {:induction false} FlattenReads(rows: seq<Row>, i: nat, j: nat)
    requires RowsDescend(rows) && forall r | 0 <= r < |rows| :: LeftSorted(rows[r])
    requires i < j < |Flatten(rows)|
    ensures ReadsBefore(Flatten(rows)[i], Flatten(rows)[j])
  {
    var init, last := rows[..|rows| - 1], rows[|rows| - 1];
    var n := |Flatten(init)|;
    if j < n {
      assert RowsDescend(init);
      FlattenReads(init, i, j);
    } else if i < n {
      var r := RowAt(init, i);
      assert Flatten(rows)[i] in rows[r] && Flatten(rows)[j] in last;
    } else {
      assert last[i - n] in last && last[j - n] in last;
    }
  }

  lemma {:induction false} RowAt(rows: seq<Row>, i: nat) returns (r: nat)
    requires i < |Flatten(rows)|
    ensures r < |rows| && Flatten(rows)[i] in rows[r]
  {
    var n := |Flatten(rows[..|rows| - 1])|;
    if i < n {
      r := RowAt(rows[..|rows| - 1], i);
    } else {
      r := |rows| - 1;
    }
  }

  lemma ArrangedDescend(rows: seq<Row>, arrange: seq<Item> -> seq<Item>)
    requires RowSort(arrange) && RowsDescend(rows)
    ensures RowsDescend(Arranged(rows, arrange))
  {
    ArrangedRows(rows, arrange);
    var arranged := Arranged(rows, arrange);
    forall r, a | 0 <= r < |rows| && a in arranged[r]
      ensures a in rows[r]
    {
      assert a in multiset(arranged[r]);
    }
  }

  /**
   If nearness is transitive on the page, the rows read strictly from top to bottom and each row from left to
   right: the output is row-major reading order, whichever sorts the library uses.
   */
  lemma ReadingOrder(sorted: seq<Item>, arrange: seq<Item> -> seq<Item>)
    requires NearTransitive(sorted) && SortedByComparator(sorted) && RowSort(arrange)
    ensures var rows := Arranged(Group(sorted), arrange);
            && multiset(Flatten(rows)) == multiset(sorted)
            && forall i, j | 0 <= i < j < |Flatten(rows)| :: ReadsBefore(Flatten(rows)[i], Flatten(rows)[j])
  {
    var rows := Arranged(Group(sorted), arrange);
    GroupDescends(sorted);
    GroupKeepsItems(sorted);
    ArrangedRows(Group(sorted), arrange);
    ArrangedDescend(Group(sorted), arrange);
    forall i, j | 0 <= i < j < |Flatten(rows)|
      ensures ReadsBefore(Flatten(rows)[i], Flatten(rows)[j])
    {
      FlattenReads(rows, i, j);
    }
  }

  lemma RearrangedIsTransitive(items: seq<Item>, sorted: seq<Item>)
    requires multiset(sorted) == multiset(items) && NearTransitive(items)
    ensures NearTransitive(sorted)
  {
    hide Near;
    forall a | a in sorted
      ensures a in items
    {
      assert a in multiset(sorted);
    }
  }

  predicate InReadingOrder(rows: seq<Row>) {
    forall i, j | 0 <= i < j < |Flatten(rows)| :: ReadsBefore(Flatten(rows)[i], Flatten(rows)[j])
  }

  /** The page as arranged, given its two sorts. */
  function PageRows(blocks: seq<Block>, pageSort: seq<Item> -> seq<Item>, rowSort: seq<Item> -> seq<Item>): seq<Row>
    requires RowSort(rowSort)
  {
    Arranged(Group(pageSort(Items(blocks, |blocks|))), rowSort)
  }

  lemma PageInReadingOrder(blocks: seq<Block>, pageSort: seq<Item> -> seq<Item>, rowSort: seq<Item> -> seq<Item>)
    requires PageSort(pageSort) && RowSort(rowSort) && NearTransitive(Items(blocks, |blocks|))
    ensures InReadingOrder(PageRows(blocks, pageSort, rowSort))
  {
    var items := Items(blocks, |blocks|);
    var sorted := pageSort(items);
    assert multiset(sorted) == multiset(items) && SortedByComparator(sorted);
    hide Items, Group, Arranged, Flatten, PageSort, RowSort, NearTransitive, SortedByComparator;
    RearrangedIsTransitive(items, sorted);
    ReadingOrder(sorted, rowSort);
  }

  // ---------------------------------------------------------------- text

  function Separator(previous: Item, item: Item): string {
    if item.left - (previous.left + previous.w) > COLUMN_GAP then "\t" else " "
  }

  function Line(row: seq<Item>): string {
    if row == [] then ""
    else if |row| == 1 then row[0].text
    else Line(row[..|row| - 1]) + Separator(row[|row| - 2], row[|row| - 1]) + row[|row| - 1].text
  }

  function LinesOf(rows: seq<Row>): (lines: seq<string>)
    ensures |lines| == |rows|
  {
    if rows == [] then [] else LinesOf(rows[..|rows| - 1]) + [Line(rows[|rows| - 1])]
  }

  method BuildLine(row: Row) returns (line: string)
    ensures line == Line(row)
  {
    line := row[0].text;
    assert row[..1] == [row[0]];
    for i := 1 to |row|
      invariant line == Line(row[..i])
    {
      assert row[..i + 1][..i] == row[..i];
      line := line + Separator(row[i - 1], row[i]) + row[i].text;
    }
    assert row[..|row|] == row;
  }

  method PositionBlocks(blocks: seq<Block>) returns (items: seq<Item>)
    ensures items == Items(blocks, |blocks|)
  {
    hide TrimSpace;
    items := [];
    for i := 0 to |blocks|
      invariant items == Items(blocks, i)
    {
      if TrimSpace(blocks[i].text) != "" {
        items := items + [Positioned(blocks[i])];
      }
    }
  }

  /** Some item of the row has all the others within the tolerance. */
  ghost predicate HasOpener(row: Row) { exists opener | opener in row :: forall a | a in row :: Near(a, opener) }

  lemma RowHasOpener(grouped: Row, row: Row)
    requires multiset(row) == multiset(grouped) && NearFirst(grouped)
    ensures HasOpener(row)
  {
    var opener := grouped[0];
    assert opener in multiset(grouped) && opener in multiset(row);
    forall a | a in row
      ensures Near(a, opener)
    {
      assert a in multiset(row) && a in multiset(grouped);
      var k :| 0 <= k < |grouped| && grouped[k] == a;
    }
    assert opener in row;
  }

  method BuildRows(grouped: seq<Row>, rowSort: seq<Item> -> seq<Item>) returns (rows: seq<Row>, lines: seq<string>)
    requires RowSort(rowSort)
    ensures rows == Arranged(grouped, rowSort) && lines == LinesOf(rows)
  {
    hide Line;
    rows, lines := [], [];
    for i := 0 to |grouped|
      invariant rows == Arranged(grouped[..i], rowSort) && lines == LinesOf(rows)
    {
      assert grouped[..i + 1][..i] == grouped[..i];
      var row := rowSort(grouped[i]);
      assert grouped[i][0] in multiset(row);
      var line := BuildLine(row);
      assert (rows + [row])[..|rows|] == rows;
      rows := rows + [row];
      lines := lines + [line];
    }
    assert grouped[..|grouped|] == grouped;
  }

  /**
   Whatever order the page sort leaves, every non-blank block is in exactly one row, each row is sorted from
   left to right and lies within the tolerance of one of its items. Where nearness is transitive on the page,
   the rows are in reading order.
   */
  method ReconstructPage(blocks: seq<Block>, pageSort: seq<Item> -> seq<Item>, rowSort: seq<Item> -> seq<Item>)
    returns (text: string, rows: seq<Row>)
    requires PageSort(pageSort) && RowSort(rowSort)
    ensures rows == PageRows(blocks, pageSort, rowSort)
    ensures multiset(Flatten(rows)) == multiset(Items(blocks, |blocks|))
    ensures forall r | 0 <= r < |rows| :: LeftSorted(rows[r]) && HasOpener(rows[r])
    ensures NearTransitive(Items(blocks, |blocks|)) ==> InReadingOrder(rows)
    ensures text == Join(LinesOf(rows), "\n")
  {
    var items := PositionBlocks(blocks);
    var sorted := pageSort(items);
    var grouped := GroupRows(sorted);
    var lines;
    rows, lines := BuildRows(grouped, rowSort);
    text := Join(lines, "\n");
    GroupKeepsItems(sorted);
    ArrangedRows(grouped, rowSort);
    assert multiset(sorted) == multiset(items);
    if NearTransitive(items) {
      PageInReadingOrder(blocks, pageSort, rowSort);
    }
    hide InReadingOrder, PageSort, RowSort, NearTransitive, Group, Arranged, Flatten, Items, LeftSorted, HasOpener, Near, NearFirst;
    forall r | 0 <= r < |rows|
      ensures HasOpener(rows[r])
    {
      RowHasOpener(grouped[r], rows[r]);
    }
  }

  // ---------------------------------------------------------------- the same, said of the blocks' boxes

  /** A box within the page, in Vision's coordinates: `y` is its lower edge, counted from the bottom of the page. */
  predicate InsidePage(b: Block) { 0.0 <= b.y && 0.0 <= b.h && b.y + b.h <= 1.0 }

  predicate Blank(b: Block) { TrimSpace(b.text) == "" }

  /** The item shows the block: its text at its left edge, as far below the top of the page as its upper edge is. */
  predicate Shows(item: Item, b: Block) {
    item.text == b.text && item.left == b.x && item.w == b.w && item.top == 1.0 - (b.y + b.h)
  }

  predicate SameHeight(a: Block, b: Block) { -0.015 <= (a.y + a.h) - (b.y + b.h) <= 0.015 }

  /** Being at the same height is transitive among the page's non-blank blocks. */
  ghost predicate HeightsTransitive(blocks: seq<Block>) {
    forall a, b, c | a in blocks && b in blocks && c in blocks && !Blank(a) && !Blank(b) && !Blank(c)
                     && SameHeight(a, b) && SameHeight(b, c) :: SameHeight(a, c)
  }

  lemma {:induction false} ItemsShowBlocks(blocks: seq<Block>, n: nat)
    requires n <= |blocks| && forall b | b in blocks :: InsidePage(b)
    ensures forall item | item in Items(blocks, n) :: exists b | b in blocks :: !Blank(b) && Shows(item, b)
    ensures forall i | 0 <= i < n && !Blank(blocks[i]) :: exists item | item in Items(blocks, n) :: Shows(item, blocks[i])
  {
    if n > 0 {
      ItemsShowBlocks(blocks, n - 1);
      var b := blocks[n - 1];
      assert b in blocks;
      if !Blank(b) {
        var item := Positioned(b);
        UprightPosition(b);
        assert Items(blocks, n) == Items(blocks, n - 1) + [item];
        assert item in Items(blocks, n);
      }
      hide TrimSpace, Clamp01;
    }
  }

  /** Turning the page over: Vision counts from the bottom, rows from the top. */
  lemma UprightPosition(b: Block)
    ensures InsidePage(b) ==> Shows(Positioned(b), b)
    ensures b.y + b.h > 1.0 ==> Positioned(b).top == 0.0
    ensures b.y + b.h < 0.0 ==> Positioned(b).top == 1.0
  {
  }

  lemma HeightsAreNear(a: Item, x: Block, b: Item, y: Block)
    requires Shows(a, x) && Shows(b, y)
    ensures Near(a, b) <==> SameHeight(x, y)
    ensures Above(a, b) <==> (x.y + x.h) - (y.y + y.h) > 0.015
  {
  }

  lemma TransitiveHeights(blocks: seq<Block>)
    requires HeightsTransitive(blocks) && forall b | b in blocks :: InsidePage(b)
    ensures NearTransitive(Items(blocks, |blocks|))
  {
    var items := Items(blocks, |blocks|);
    ItemsShowBlocks(blocks, |blocks|);
    hide Items, Shows, Near, SameHeight, Blank, InsidePage;
    forall a, b, c | a in items && b in items && c in items && Near(a, b) && Near(b, c)
      ensures Near(a, c)
    {
      var x :| x in blocks && !Blank(x) && Shows(a, x);
      var y :| y in blocks && !Blank(y) && Shows(b, y);
      var z :| z in blocks && !Blank(z) && Shows(c, z);
      HeightsAreNear(a, x, b, y);
      HeightsAreNear(b, y, c, z);
      HeightsAreNear(a, x, c, z);
    }
  }

  /** An item of the page is in some row, and an item of a row is on the page. */
  lemma {:induction false} InSomeRow(rows: seq<Row>, item: Item)
    ensures item in Flatten(rows) <==> exists r | 0 <= r < |rows| :: item in rows[r]
  {
    if rows != [] {
      InSomeRow(rows[..|rows| - 1], item);
      if item in Flatten(rows) && item !in Flatten(rows[..|rows| - 1]) {
        assert item in rows[|rows| - 1];
      }
      assert forall r | 0 <= r < |rows| - 1 :: rows[..|rows| - 1][r] == rows[r];
    }
  }

  lemma ShownInRows(blocks: seq<Block>, pageSort: seq<Item> -> seq<Item>, rowSort: seq<Item> -> seq<Item>)
    requires PageSort(pageSort) && RowSort(rowSort) && forall b | b in blocks :: InsidePage(b)
    ensures var rows := PageRows(blocks, pageSort, rowSort);
            && (forall r, a | 0 <= r < |rows| && a in rows[r] :: exists b | b in blocks :: !Blank(b) && Shows(a, b))
            && (forall b | b in blocks && !Blank(b) :: exists r, a | 0 <= r < |rows| && a in rows[r] :: Shows(a, b))
  {
    hide *;
    var items, rows := Items(blocks, |blocks|), PageRows(blocks, pageSort, rowSort);
    ItemsShowBlocks(blocks, |blocks|);
    RowsHoldItems(blocks, pageSort, rowSort);
    forall r, a | 0 <= r < |rows| && a in rows[r]
      ensures exists b | b in blocks :: !Blank(b) && Shows(a, b)
    {
      InSomeRow(rows, a);
      SameMembers(Flatten(rows), items, a);
    }
    forall b | b in blocks && !Blank(b)
      ensures exists r, a | 0 <= r < |rows| && a in rows[r] :: Shows(a, b)
    {
      var i :| 0 <= i < |blocks| && blocks[i] == b;
      var a :| a in items && Shows(a, b);
      SameMembers(Flatten(rows), items, a);
      InSomeRow(rows, a);
    }
  }

  lemma SameMembers<T>(s: seq<T>, t: seq<T>, x: T)
    requires multiset(s) == multiset(t)
    ensures x in s <==> x in t
  {
    assert x in s <==> x in multiset(s);
    assert x in t <==> x in multiset(t);
  }

  /** Between neighbours of a row: a tab across a gap of more than a fiftieth of the page's width, a space otherwise. */
  lemma LineBetweenBlocks(row: seq<Item>, a: Item, x: Block, b: Item, y: Block)
    requires Shows(a, x) && Shows(b, y)
    ensures Line([b]) == y.text
    ensures Line(row + [a, b]) == Line(row + [a]) + (if y.x - (x.x + x.w) > 0.02 then "\t" else " ") + y.text
  {
    var whole := row + [a, b];
    assert whole[..|whole| - 1] == row + [a];
  }

  lemma RowsHoldItems(blocks: seq<Block>, pageSort: seq<Item> -> seq<Item>, rowSort: seq<Item> -> seq<Item>)
    requires PageSort(pageSort) && RowSort(rowSort)
    ensures multiset(Flatten(PageRows(blocks, pageSort, rowSort))) == multiset(Items(blocks, |blocks|))
  {
    var sorted := pageSort(Items(blocks, |blocks|));
    assert multiset(sorted) == multiset(Items(blocks, |blocks|));
    GroupKeepsItems(sorted);
    ArrangedRows(Group(sorted), rowSort);
    hide Items, Group, Flatten, Arranged;
  }

  /**
   Reading order on the page itself: where being at the same height is transitive, a block whose upper edge is more
   than the tolerance above another's is in an earlier row, blocks at the same height share a row, and a row reads
   by rising left edges.
   */
  lemma BlocksInReadingOrder(blocks: seq<Block>, pageSort: seq<Item> -> seq<Item>, rowSort: seq<Item> -> seq<Item>,
                             r: nat, a: Item, x: Block, q: nat, b: Item, y: Block)
    requires PageSort(pageSort) && RowSort(rowSort) && HeightsTransitive(blocks) && forall z | z in blocks :: InsidePage(z)
    requires var rows := PageRows(blocks, pageSort, rowSort);
             r < |rows| && q < |rows| && a in rows[r] && b in rows[q] && Shows(a, x) && Shows(b, y)
    ensures (x.y + x.h) - (y.y + y.h) > 0.015 <==> r < q
    ensures SameHeight(x, y) <==> r == q
    ensures forall i, j | 0 <= i < j < |PageRows(blocks, pageSort, rowSort)[r]| ::
              PageRows(blocks, pageSort, rowSort)[r][i].left <= PageRows(blocks, pageSort, rowSort)[r][j].left
  {
    var items := Items(blocks, |blocks|);
    var sorted := pageSort(items);
    assert multiset(sorted) == multiset(items) && (NearTransitive(items) ==> SortedByComparator(sorted));
    TransitiveHeights(blocks);
    RearrangedIsTransitive(items, sorted);
    GroupDescends(sorted);
    ArrangedDescend(Group(sorted), rowSort);
    ArrangedRows(Group(sorted), rowSort);
    HeightsAreNear(a, x, b, y);
    HeightsAreNear(b, y, a, x);
    var rows := PageRows(blocks, pageSort, rowSort);
    hide Items, Group, Arranged, Near, Shows, NearTransitive, SortedByComparator, PageSort, RowSort, HeightsTransitive;
    assert r < q ==> AllAbove(rows[r], rows[q]);
    assert q < r ==> AllAbove(rows[q], rows[r]);
    assert r == q ==> AllNear(rows[r]);
  }

  lemma OneItemArranged(item: Item, rowSort: seq<Item> -> seq<Item>)
    requires RowSort(rowSort)
    ensures rowSort([item]) == [item]
  {
    var row := rowSort([item]);
    assert multiset(row) == multiset([item]);
    assert |row| == |multiset(row)| == 1 && row[0] in multiset(row);
  }

  lemma TwoItemsSorted(a: Item, b: Item, items: seq<Item>, sorted: seq<Item>)
    requires items == [a, b] || items == [b, a]
    requires multiset(sorted) == multiset(items) && Above(a, b) && SortedByComparator(sorted)
    ensures sorted == [a, b]
  {
    assert |sorted| == |multiset(sorted)| == 2;
    assert sorted[0] in multiset(sorted) && sorted[1] in multiset(sorted);
    assert a in multiset(sorted) && b in multiset(sorted);
    assert sorted == [sorted[0], sorted[1]];
    assert Before(a, b);
  }

  /** A page of two blocks in either order, one more than the tolerance above the other: the upper one's text comes first. */
  lemma UpperBlockFirst(upper: Block, lower: Block, blocks: seq<Block>, pageSort: seq<Item> -> seq<Item>, rowSort: seq<Item> -> seq<Item>)
    requires PageSort(pageSort) && RowSort(rowSort)
    requires InsidePage(upper) && InsidePage(lower) && !Blank(upper) && !Blank(lower)
    requires (upper.y + upper.h) - (lower.y + lower.h) > 0.015
    requires blocks == [upper, lower] || blocks == [lower, upper]
    ensures Join(LinesOf(PageRows(blocks, pageSort, rowSort)), "\n") == upper.text + "\n" + lower.text
  {
    hide *;
    var a, b := Positioned(upper), Positioned(lower);
    var items := Items(blocks, |blocks|);
    TwoItems(blocks[0], blocks[1]);
    UprightPosition(upper);
    UprightPosition(lower);
    HeightsAreNear(a, upper, b, lower);
    PairIsTransitive(a, b, items);
    SortedPage(items, pageSort);
    TwoItemsSorted(a, b, items, pageSort(items));
    OneItemArranged(a, rowSort);
    OneItemArranged(b, rowSort);
    AboveIsNotNear(a, b);
    TwoRows(a, b, rowSort);
    assert PageRows(blocks, pageSort, rowSort) == Arranged(Group([a, b]), rowSort) by { PageRowsOf(blocks, pageSort, rowSort); }
  }

  lemma PageRowsOf(blocks: seq<Block>, pageSort: seq<Item> -> seq<Item>, rowSort: seq<Item> -> seq<Item>)
    requires RowSort(rowSort)
    ensures PageRows(blocks, pageSort, rowSort) == Arranged(Group(pageSort(Items(blocks, |blocks|))), rowSort)
  {
    hide Arranged, Group, Items;
  }

  lemma SortedPage(items: seq<Item>, pageSort: seq<Item> -> seq<Item>)
    requires PageSort(pageSort) && NearTransitive(items)
    ensures multiset(pageSort(items)) == multiset(items) && SortedByComparator(pageSort(items))
  {
  }

  lemma PairIsTransitive(a: Item, b: Item, items: seq<Item>)
    requires items == [a, b] || items == [b, a]
    ensures NearTransitive(items)
  {
  }

  lemma AboveIsNotNear(a: Item, b: Item)
    requires Above(a, b)
    ensures !Near(b, a)
  {
  }

  lemma TwoItems(a: Block, b: Block)
    requires !Blank(a) && !Blank(b)
    ensures Items([a, b], 2) == [Positioned(a), Positioned(b)]
  {
    hide Positioned;
    LastItem([a, b], 2);
    LastItem([a, b], 1);
  }

  lemma LastItem(blocks: seq<Block>, n: nat)
    requires 0 < n <= |blocks| && !Blank(blocks[n - 1])
    ensures Items(blocks, n) == Items(blocks, n - 1) + [Positioned(blocks[n - 1])]
  {
    hide Positioned;
  }

  lemma TwoRows(a: Item, b: Item, rowSort: seq<Item> -> seq<Item>)
    requires RowSort(rowSort) && !Near(b, a) && rowSort([a]) == [a] && rowSort([b]) == [b]
    ensures Join(LinesOf(Arranged(Group([a, b]), rowSort)), "\n") == a.text + "\n" + b.text
  {
    hide Near, RowSort;
    assert [a][..0] == [] && [a, b][..1] == [a];
    assert Group([a]) == [[a]];
    var rows: seq<Row> := [[a], [b]];
    assert Group([a, b]) == rows;
    assert rows[..1] == [[a]] && rows[..1][..0] == [];
    assert Arranged([[a]], rowSort) == [[a]];
    assert Arranged(rows, rowSort) == rows;
    assert LinesOf([[a]]) == [a.text];
    assert LinesOf(rows) == [a.text, b.text];
    assert [a.text, b.text][1..] == [b.text];
  }

  datatype PageData = PageData(text: string, blocks: seq<Block>)

  datatype Payload = Payload(text: string, pages: seq<PageData>)

  /** Blocks decide a page's text; without any, the server's text stands. */
  function PageTexts(pages: seq<PageData>, pageSort: seq<Item> -> seq<Item>, rowSort: seq<Item> -> seq<Item>): seq<string>
    requires RowSort(rowSort)
  {
    if pages == [] then []
    else
      var last := pages[|pages| - 1];
      PageTexts(pages[..|pages| - 1], pageSort, rowSort)
      + [if last.blocks == [] then last.text else Join(LinesOf(PageRows(last.blocks, pageSort, rowSort)), "\n")]
  }

  /** A page with blocks reads as its rows, one line each; a page without any keeps the server's text. */
  lemma TextOfLastPage(pages: seq<PageData>, page: PageData, pageSort: seq<Item> -> seq<Item>, rowSort: seq<Item> -> seq<Item>)
    requires RowSort(rowSort)
    ensures PageTexts([], pageSort, rowSort) == []
    ensures |page.blocks| == 0 ==> PageTexts(pages + [page], pageSort, rowSort) == PageTexts(pages, pageSort, rowSort) + [page.text]
    ensures |page.blocks| > 0 ==>
              PageTexts(pages + [page], pageSort, rowSort)
              == PageTexts(pages, pageSort, rowSort) + [Join(LinesOf(PageRows(page.blocks, pageSort, rowSort)), "\n")]
  {
    hide PageRows, LinesOf, Join;
    assert (pages + [page])[..|pages|] == pages;
  }

  method ReconstructLayout(result: Option<Payload>, pageSort: seq<Item> -> seq<Item>, rowSort: seq<Item> -> seq<Item>)
    returns (text: string)
    requires PageSort(pageSort) && RowSort(rowSort)
    ensures result.None? ==> text == ""
    ensures result.Some? && result.value.pages == [] ==> text == result.value.text
    ensures result.Some? && result.value.pages != [] ==> text == Join(PageTexts(result.value.pages, pageSort, rowSort), "\n\n--- PAGE BREAK ---\n\n")
  {
    hide PageRows, LinesOf, InReadingOrder, NearTransitive;
    if result.None? {
      return "";
    }
    var pages := result.value.pages;
    if |pages| == 0 {
      return result.value.text;
    }
    var pageTexts: seq<string> := [];
    for i := 0 to |pages|
      invariant pageTexts == PageTexts(pages[..i], pageSort, rowSort)
    {
      assert pages[..i + 1][..i] == pages[..i];
      if |pages[i].blocks| == 0 {
        pageTexts := pageTexts + [pages[i].text];
      } else {
        var page, _ := ReconstructPage(pages[i].blocks, pageSort, rowSort);
        pageTexts := pageTexts + [page];
      }
    }
    assert pages[..|pages|] == pages;
    return Join(pageTexts, PAGE_BREAK);
  }
}
