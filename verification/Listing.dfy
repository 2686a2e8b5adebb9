/**
 Multi-column listings of `libls/print.c`.
 */
module Listing {
  import Octets

  /** An entry and how many characters `printaname` prints for it. */
  datatype Entry = Entry(name: string, width: nat)

  /** What is put on a line: entries, each with the spaces after it. */
  datatype Cell = Cell(entry: Entry, pad: nat)

  type Line = seq<Cell>

  function Width(l: Line): nat
    decreases |l|
  {
    if l == [] then 0 else Width(l[..|l| - 1]) + l[|l| - 1].entry.width + l[|l| - 1].pad
  }

  // ---------- columns ----------

  /** The position in column `col` of a row. */
  function At(row: nat, col: nat, numrows: nat): nat {
    if col == 0 then row else At(row, col - 1, numrows) + numrows
  }

  lemma {:induction false} AtIs(row: nat, col: nat, numrows: nat)
    ensures At(row, col, numrows) == row + col * numrows
  {
    if col > 0 { AtIs(row, col - 1, numrows); }
  }

  lemma {:induction false} AtOrder(row: nat, c: nat, d: nat, numrows: nat)
    requires c <= d
    ensures At(row, c, numrows) <= At(row, d, numrows)
    decreases d
  {
    if c < d { AtOrder(row, c, d - 1, numrows); }
  }

  lemma Quotient(n: nat, q: nat, d: nat)
    requires d > 0 && q * d <= n
    ensures n / d >= q && (n / d) * d <= n < (n / d + 1) * d
  {
    if n / d < q { Octets.Product(n / d + 1, q, d); }
  }

  /** As many columns as fit with at least `colwidth` each, and each as wide as they can all be. */
  ghost predicate Fitted(numcols: nat, width: nat, colwidth: nat, mywidth: nat) {
    && numcols >= 2 && width >= colwidth
    && numcols * width <= mywidth < numcols * (width + 1) && mywidth < (numcols + 1) * colwidth
  }

  /** `compute_columns`: the number of columns and their width, or none when two do not fit. */
  method ComputeColumns(colwidth: nat, termwidth: nat) returns (width: nat, numcols: nat)
    requires colwidth > 0
    ensures width == 0 <==> termwidth + 1 < 2 * colwidth
    ensures width > 0 ==> Fitted(numcols, width, colwidth, termwidth + 1) && At(0, numcols, width) <= termwidth + 1
  {
    var mywidth := termwidth + 1;
    if mywidth < 2 * colwidth {
      return 0, 0;
    }
    numcols := mywidth / colwidth;
    Quotient(mywidth, 2, colwidth);
    width := mywidth / numcols;
    Quotient(mywidth, colwidth, numcols);
    AtIs(0, numcols, width);
  }

  // ---------- rows ----------

  /** Cells of different rows or columns show different positions. */
  lemma {:induction false} OneCell(r: nat, c: nat, s: nat, d: nat, numrows: nat)
    requires r < numrows && s < numrows && At(r, c, numrows) == At(s, d, numrows)
    ensures r == s && c == d
    decreases c
  {
    if c > 0 && d > 0 { OneCell(r, c - 1, s, d - 1, numrows); }
  }

  lemma Rest(num: nat, d: nat)
    requires d > 0
    ensures num == num / d * d + num % d && num % d < d
    ensures (num / d - 1) * d == num / d * d - d
  {}

  /** How many rows: enough for every entry, and none empty. */
  method Rows(num: nat, numcols: nat) returns (numrows: nat)
    requires numcols > 0
    ensures num <= At(0, numcols, numrows) && (num > 0 ==> 0 < numrows <= num) && (num == 0 ==> numrows == 0)
    ensures num > 0 ==> (numrows - 1) * numcols < num
  {
    numrows := num / numcols;
    if num % numcols != 0 {
      numrows := numrows + 1;
    }
    Rest(num, numcols);
    if num > 0 && numrows > num { Octets.Product(num, numrows - 1, numcols); Octets.Product(1, numcols, num); }
    AtIs(0, numcols, numrows);
  }

  /** Line `row` holds exactly the entries at row, row + numrows, row + 2 * numrows, ... */
  ghost predicate IsRow(l: Line, entries: seq<Entry>, row: nat, numrows: nat) {
    Shows(l, entries, row, numrows) && At(row, |l|, numrows) >= |entries|
  }

  ghost predicate Shows(l: Line, entries: seq<Entry>, row: nat, numrows: nat) {
    forall c :: 0 <= c < |l| ==> At(row, c, numrows) < |entries| && l[c].entry == entries[At(row, c, numrows)]
  }

  lemma ShowsMore(l: Line, entries: seq<Entry>, row: nat, numrows: nat, pad: nat)
    requires Shows(l, entries, row, numrows) && At(row, |l|, numrows) < |entries|
    ensures Shows(l + [Cell(entries[At(row, |l|, numrows)], pad)], entries, row, numrows)
  {}

  lemma WidthMore(l: Line, c: Cell)
    ensures Width(l + [c]) == Width(l) + c.entry.width + c.pad
  {
    assert (l + [c])[..|l|] == l;
  }

  /** One more entry, padded. */
  lemma CellMore(l: Line, entries: seq<Entry>, row: nat, numrows: nat, pad: nat) returns (more: Line)
    requires Shows(l, entries, row, numrows) && At(row, |l|, numrows) < |entries|
    ensures var e := entries[At(row, |l|, numrows)];
      more == l + [Cell(e, pad)] && Shows(more, entries, row, numrows) && Width(more) == Width(l) + e.width + pad
  {
    var c := Cell(entries[At(row, |l|, numrows)], pad);
    more := l + [c];
    WidthMore(l, c);
    ShowsMore(l, entries, row, numrows, pad);
  }

  /** All but the last entry fill their columns. */
  predicate Aligned(l: Line, colwidth: nat) {
    forall c :: 0 <= c < |l| ==> if c + 1 < |l| then l[c].entry.width + l[c].pad == colwidth else l[c].pad == 0
  }

  /** Every entry fills its column. */
  predicate Filled(l: Line, colwidth: nat) { forall c :: 0 <= c < |l| ==> l[c].entry.width + l[c].pad == colwidth }

  lemma AlignedLast(l: Line, e: Entry, colwidth: nat)
    requires Filled(l, colwidth)
    ensures Aligned(l + [Cell(e, 0)], colwidth)
  {}

  /** The last entry of a row is not padded. */
  lemma LastCell(l: Line, entries: seq<Entry>, row: nat, numrows: nat, numcols: nat, colwidth: nat)
    requires Shows(l, entries, row, numrows) && At(row, |l|, numrows) < |entries| <= At(row, |l| + 1, numrows)
    requires |l| < numcols && Width(l) == At(0, |l|, colwidth) && entries[At(row, |l|, numrows)].width < colwidth
    ensures var more := l + [Cell(entries[At(row, |l|, numrows)], 0)];
      IsRow(more, entries, row, numrows) && Width(more) < At(0, numcols, colwidth)
  {
    ghost var more := CellMore(l, entries, row, numrows, 0);
    AtOrder(0, |l| + 1, numcols, colwidth);
  }

  /** The loop of `printcol` over one row. */
  method PrintRow(entries: seq<Entry>, row: nat, numrows: nat, numcols: nat, colwidth: nat) returns (line: Line)
    requires row < numrows && row < |entries| <= At(row, numcols, numrows) && numcols > 0
    requires forall i :: 0 <= i < |entries| ==> entries[i].width < colwidth
    ensures IsRow(line, entries, row, numrows) && Aligned(line, colwidth)
    ensures |line| <= numcols && Width(line) < At(0, numcols, colwidth)
  {
    line := [];
    var base, col := row, 0;
    while true
      invariant col == |line| < numcols && base == At(row, col, numrows) < |entries|
      invariant Shows(line, entries, row, numrows) && Width(line) == At(0, col, colwidth) && Filled(line, colwidth)
      decreases numcols - col
    {
      var e := entries[base];
      base := base + numrows;
      if base >= |entries| {
        LastCell(line, entries, row, numrows, numcols, colwidth);
        AlignedLast(line, e, colwidth);
        line := line + [Cell(e, 0)];
        return;
      }
      assert base == At(row, col + 1, numrows);
      col := col + 1;
      if col == numcols {
        assert false;
      }
      ghost var more := CellMore(line, entries, row, numrows, colwidth - e.width);
      line := line + [Cell(e, colwidth - e.width)];
    }
  }

  lemma {:induction false} AtRow(row: nat, col: nat, numrows: nat)
    ensures At(row, col, numrows) == row + At(0, col, numrows)
  {
    if col > 0 { AtRow(row, col - 1, numrows); }
  }

  /** Where position `i` is on the screen. */
  lemma {:induction false} Locate(i: nat, numrows: nat) returns (r: nat, c: nat)
    requires numrows > 0
    ensures r < numrows && At(r, c, numrows) == i
    decreases i
  {
    if i < numrows {
      return i, 0;
    }
    r, c := Locate(i - numrows, numrows);
    c := c + 1;
  }

  ghost predicate IsTable(lines: seq<Line>, entries: seq<Entry>) {
    forall r :: 0 <= r < |lines| ==> IsRow(lines[r], entries, r, |lines|)
  }

  /** Every entry is on some line, at the place its position says. */
  lemma EveryEntry(lines: seq<Line>, entries: seq<Entry>, i: nat) returns (r: nat, c: nat)
    requires lines != [] && i < |entries| && IsTable(lines, entries)
    ensures r < |lines| && c < |lines[r]| && At(r, c, |lines|) == i && lines[r][c].entry == entries[i]
  {
    r, c := Locate(i, |lines|);
    assert IsRow(lines[r], entries, r, |lines|);
    if c >= |lines[r]| { AtOrder(r, |lines[r]|, c, |lines|); }
  }

  // ---------- every entry once ----------

  /** How often `e` is among the first `n` entries of a line. */
  function OnLine(l: Line, n: nat, e: Entry): nat
    requires n <= |l|
  {
    if n == 0 then 0 else OnLine(l, n - 1, e) + if l[n - 1].entry == e then 1 else 0
  }

  /** How often it is on the first `k` lines. */
  function ShownTo(lines: seq<Line>, k: nat, e: Entry): nat
    requires k <= |lines|
  {
    if k == 0 then 0 else ShownTo(lines, k - 1, e) + OnLine(lines[k - 1], |lines[k - 1]|, e)
  }

  /** How often it is on the screen. */
  function Shown(lines: seq<Line>, e: Entry): nat { ShownTo(lines, |lines|, e) }

  /** How often it is to be listed. */
  function Listed(entries: seq<Entry>, e: Entry): nat {
    if entries == [] then 0 else Listed(entries[..|entries| - 1], e) + if entries[|entries| - 1] == e then 1 else 0
  }

  lemma {:induction false} ShownNothing(lines: seq<Line>, k: nat, e: Entry)
    requires k <= |lines| && forall r :: 0 <= r < |lines| ==> lines[r] == []
    ensures ShownTo(lines, k, e) == 0
  {
    if k > 0 { ShownNothing(lines, k - 1, e); }
  }

  lemma {:induction false} SameOnLine(l: Line, m: Line, n: nat, e: Entry)
    requires n <= |l| && n <= |m| && forall i :: 0 <= i < n ==> l[i] == m[i]
    ensures OnLine(l, n, e) == OnLine(m, n, e)
  {
    if n > 0 { SameOnLine(l, m, n - 1, e); }
  }

  /** Lines that differ in one cell, at the end of line `r`. */
  ghost predicate Without(lines: seq<Line>, less: seq<Line>, r: nat, c: nat) {
    && |lines| == |less| && r < |lines| && |lines[r]| == c + 1 && less[r] == lines[r][..c]
    && forall s :: 0 <= s < |lines| && s != r ==> less[s] == lines[s]
  }

  lemma {:induction false} ShownWithout(lines: seq<Line>, less: seq<Line>, r: nat, c: nat, k: nat, e: Entry)
    requires Without(lines, less, r, c) && k <= |lines|
    ensures ShownTo(lines, k, e) == ShownTo(less, k, e) + if k > r && lines[r][c].entry == e then 1 else 0
  {
    if k > 0 {
      ShownWithout(lines, less, r, c, k - 1, e);
      if k - 1 == r { SameOnLine(lines[r], less[r], c, e); }
    }
  }

  /** The row that ends with the last entry of all, without it. */
  lemma RowWithout(l: Line, entries: seq<Entry>, numrows: nat, r: nat, c: nat)
    requires IsRow(l, entries, r, numrows) && r < numrows && entries != []
    requires At(r, c, numrows) == |entries| - 1 && c < |l|
    ensures |l| == c + 1 && IsRow(l[..c], entries[..|entries| - 1], r, numrows)
  {
    if |l| > c + 1 { AtOrder(r, c + 1, |l| - 1, numrows); }
    forall d: nat | d < c ensures At(r, d, numrows) < |entries| - 1 {
      AtOrder(r, d + 1, c, numrows);
    }
  }

  /** Any other row. */
  lemma RowStays(l: Line, entries: seq<Entry>, s: nat, numrows: nat, r: nat, c: nat)
    requires IsRow(l, entries, s, numrows) && s < numrows && r < numrows && s != r && entries != []
    requires At(r, c, numrows) == |entries| - 1
    ensures IsRow(l, entries[..|entries| - 1], s, numrows)
  {
    forall d: nat | d < |l| ensures At(s, d, numrows) != |entries| - 1 {
      if At(s, d, numrows) == At(r, c, numrows) { OneCell(s, d, r, c, numrows); }
    }
  }

  /** The last entry is the last of its line; without it the lines are those of the entries before. */
  lemma LastEntry(lines: seq<Line>, entries: seq<Entry>) returns (r: nat, c: nat)
    requires lines != [] && entries != [] && IsTable(lines, entries)
    ensures r < |lines| && |lines[r]| == c + 1 && lines[r][c].entry == entries[|entries| - 1]
    ensures IsTable(lines[r := lines[r][..c]], entries[..|entries| - 1])
  {
    r, c := EveryEntry(lines, entries, |entries| - 1);
    assert IsRow(lines[r], entries, r, |lines|);
    RowWithout(lines[r], entries, |lines|, r, c);
    var less := lines[r := lines[r][..c]];
    forall s | 0 <= s < |less| ensures IsRow(less[s], entries[..|entries| - 1], s, |less|) {
      if s != r {
        assert IsRow(lines[s], entries, s, |lines|);
        RowStays(lines[s], entries, s, |lines|, r, c);
      }
    }
  }

  lemma EmptyRow(l: Line, row: nat, numrows: nat)
    requires IsRow(l, [], row, numrows)
    ensures l == []
  {
    var _ := At(row, 0, numrows);
  }

  /** Lines that are the rows of a table show every entry exactly as often as it is to be listed. */
  lemma {:induction false} EachOnce(lines: seq<Line>, entries: seq<Entry>, e: Entry)
    requires IsTable(lines, entries) && (entries != [] ==> lines != [])
    ensures Shown(lines, e) == Listed(entries, e)
    decreases |entries|
  {
    if entries == [] {
      forall r: nat | r < |lines| ensures lines[r] == [] {
        EmptyRow(lines[r], r, |lines|);
      }
      ShownNothing(lines, |lines|, e);
    } else {
      var r, c := LastEntry(lines, entries);
      var less := lines[r := lines[r][..c]];
      ShownWithout(lines, less, r, c, |lines|, e);
      EachOnce(less, entries[..|entries| - 1], e);
    }
  }

  lemma AllOnce(lines: seq<Line>, entries: seq<Entry>)
    requires IsTable(lines, entries) && (entries != [] ==> lines != [])
    ensures forall e :: Shown(lines, e) == Listed(entries, e)
  {
    forall e ensures Shown(lines, e) == Listed(entries, e) {
      EachOnce(lines, entries, e);
    }
  }

  /** One entry a line if two columns do not fit, and otherwise the columns that do, with no more lines than they need. */
  ghost predicate LaidOut(lines: seq<Line>, count: nat, numcols: nat, width: nat, maxwidth: nat, termwidth: nat) {
    && (forall r :: 0 <= r < |lines| ==> Aligned(lines[r], width) && |lines[r]| <= numcols)
    && if termwidth + 1 < 2 * (maxwidth + 1) then numcols == 1 && |lines| == count
       else Fitted(numcols, width, maxwidth + 1, termwidth + 1) && (count > 0 ==> (|lines| - 1) * numcols < count)
  }

  /**
   `printcol`, with its fall-back to one entry a line: every line is a row of
   the table, the lines show every entry once, the entries are in columns, and
   no line is wider than the terminal if no entry is.
   */
  method PrintCol(entries: seq<Entry>, maxwidth: nat, termwidth: nat)
    returns (lines: seq<Line>, ghost numcols: nat, ghost width: nat)
    requires forall i :: 0 <= i < |entries| ==> entries[i].width <= maxwidth
    ensures entries != [] ==> lines != []
    ensures IsTable(lines, entries) && forall e :: Shown(lines, e) == Listed(entries, e)
    ensures LaidOut(lines, |entries|, numcols, width, maxwidth, termwidth)
    ensures maxwidth <= termwidth ==>
      forall r :: 0 <= r < |lines| ==> Width(lines[r]) <= termwidth
  {
    var colwidth, cols := ComputeColumns(maxwidth + 1, termwidth);
    if colwidth == 0 {
      lines := PrintScol(entries);
      AllOnce(lines, entries);
      numcols, width := 1, maxwidth + 1;
      return;
    }
    var numrows := Rows(|entries|, cols);
    lines := [];
    while |lines| < numrows
      invariant |lines| <= numrows
      invariant forall r :: 0 <= r < |lines| ==> IsRow(lines[r], entries, r, numrows) && Width(lines[r]) <= termwidth
      invariant forall r :: 0 <= r < |lines| ==> Aligned(lines[r], colwidth) && |lines[r]| <= cols
    {
      AtRow(|lines|, cols, numrows);
      var line := PrintRow(entries, |lines|, numrows, cols, colwidth);
      lines := lines + [line];
    }
    AllOnce(lines, entries);
    numcols, width := cols, colwidth;
  }

  /** `printscol`. */
  method PrintScol(entries: seq<Entry>) returns (lines: seq<Line>)
    ensures |lines| == |entries|
    ensures forall r :: 0 <= r < |lines| ==> IsRow(lines[r], entries, r, |entries|) && Width(lines[r]) == entries[r].width
    ensures forall r :: 0 <= r < |lines| ==> |lines[r]| == 1 && lines[r][0].pad == 0
  {
    lines := [];
    while |lines| < |entries|
      invariant |lines| <= |entries|
      invariant forall r :: 0 <= r < |lines| ==> IsRow(lines[r], entries, r, |entries|) && Width(lines[r]) == entries[r].width
      invariant forall r :: 0 <= r < |lines| ==> |lines[r]| == 1 && lines[r][0].pad == 0
    {
      var e := entries[|lines|];
      WidthMore([], Cell(e, 0));
      assert [] + [Cell(e, 0)] == [Cell(e, 0)];
      lines := lines + [[Cell(e, 0)]];
    }
  }
}
