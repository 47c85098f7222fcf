/**
 * The sortable table: a sort column and a direction over a fixed list of
 * columns, the column titles that show them, the selected row's id and the
 * generic comparison of two cell values. Columns are positions 0 .. n-1;
 * moving to the next or previous column is a step of one modulo n, as the
 * one column type the program defines does it.
 */
module SortableTable {
  import opened Wrappers
  import opened Text
  import opened Civil

  datatype SortDirection = SortAsc | SortDesc

  /** reverseSortDir's toggle. */
  function Reversed(d: SortDirection): SortDirection {
    if d == SortAsc then SortDesc else SortAsc
  }

  /** Reversing changes the direction, and reversing twice restores it. */
  lemma ReversedInvolution(d: SortDirection)
    ensures Reversed(d) != d && Reversed(Reversed(d)) == d
  {
  }

  /** What a column tells the table: its title, width, alignment and whether it can be sorted on. */
  datatype ColumnSpec = ColumnSpec(title: string, width: nat, rightAligned: bool, sortable: bool)

  /** Cycling through the columns stops only if some column is sortable. */
  predicate HasSortable(cols: seq<ColumnSpec>) {
    exists i :: 0 <= i < |cols| && cols[i].sortable
  }

  /** The column `d` steps forward from `from`, wrapping around; for one step this is `(from + 1) % n`. */
  function Forward(from: nat, d: nat, n: nat): (r: nat)
    requires from < n && d <= n
    ensures r < n
  {
    if from + d < n then from + d else from + d - n
  }

  /** The column `d` steps backward from `from`, wrapping around; for one step this is `(from - 1 + n) % n`. */
  function Backward(from: nat, d: nat, n: nat): (r: nat)
    requires from < n && d <= n
    ensures r < n
  {
    if d <= from then from - d else from + n - d
  }

  /**
   * `to` is the first sortable column met when stepping forward from
   * `from`, wrapping around: `from` itself is reached last.
   */
  ghost predicate FirstSortableAfter(cols: seq<ColumnSpec>, from: nat, to: nat) {
    from < |cols| && to < |cols| &&
    exists d :: 1 <= d <= |cols| && to == Forward(from, d, |cols|) && cols[to].sortable &&
      forall k :: 1 <= k < d ==> !cols[Forward(from, k, |cols|)].sortable
  }

  /** The same stepping backward. */
  ghost predicate FirstSortableBefore(cols: seq<ColumnSpec>, from: nat, to: nat) {
    from < |cols| && to < |cols| &&
    exists d :: 1 <= d <= |cols| && to == Backward(from, d, |cols|) && cols[to].sortable &&
      forall k :: 1 <= k < d ==> !cols[Backward(from, k, |cols|)].sortable
  }

  /** One more step forward, as the source computes it. */
  lemma ForwardStep(from: nat, d: nat, n: nat)
    requires from < n && d < n
    ensures (Forward(from, d, n) + 1) % n == Forward(from, d + 1, n)
  {
    var x := Forward(from, d, n);
    if x + 1 < n {
      assert (x + 1) % n == x + 1;
    } else {
      assert (x + 1) % n == 0;
    }
  }

  /** One more step backward, as the source computes it. */
  lemma BackwardStep(from: nat, d: nat, n: nat)
    requires from < n && d < n
    ensures (Backward(from, d, n) - 1 + n) % n == Backward(from, d + 1, n)
  {
    var x := Backward(from, d, n);
    if x > 0 {
      assert (x - 1 + n) % n == x - 1;
    } else {
      assert (x - 1 + n) % n == n - 1;
    }
  }

  /** `n` forward steps from `from` meet every column. */
  lemma ForwardCovers(from: nat, n: nat, j: nat)
    requires from < n && j < n
    ensures exists d :: 1 <= d <= n && Forward(from, d, n) == j
  {
    var d := if j > from then j - from else j + n - from;
    assert Forward(from, d, n) == j;
  }

  /** `n` backward steps from `from` meet every column. */
  lemma BackwardCovers(from: nat, n: nat, j: nat)
    requires from < n && j < n
    ensures exists d :: 1 <= d <= n && Backward(from, d, n) == j
  {
    var d := if j < from then from - j else from + n - j;
    assert Backward(from, d, n) == j;
  }

  /** The first sortable column after `from` is unique. */
  lemma FirstSortableAfterUnique(cols: seq<ColumnSpec>, from: nat, a: nat, b: nat)
    requires FirstSortableAfter(cols, from, a) && FirstSortableAfter(cols, from, b)
    ensures a == b
  {
    var n := |cols|;
    var da :| 1 <= da <= n && a == Forward(from, da, n) && cols[a].sortable &&
      forall k :: 1 <= k < da ==> !cols[Forward(from, k, n)].sortable;
    var db :| 1 <= db <= n && b == Forward(from, db, n) && cols[b].sortable &&
      forall k :: 1 <= k < db ==> !cols[Forward(from, k, n)].sortable;
    assert da == db;
  }

  /** The arrow a sorted column's title starts with. */
  function Arrow(d: SortDirection): string {
    if d == SortAsc then "\U{2191} " else "\U{2193} "
  }

  predicate IsArrow(c: char) {
    c == '\U{2191}' || c == '\U{2193}'
  }

  predicate HasArrow(s: string) {
    exists i :: 0 <= i < |s| && IsArrow(s[i])
  }

  /** getTableColumns' title for one column: the arrow when it is the sort column, then padded when right-aligned. */
  function ColumnTitle(col: ColumnSpec, isSortColumn: bool, dir: SortDirection): string {
    var t := if isSortColumn then Arrow(dir) + col.title else col.title;
    if col.rightAligned then PadLeft(t, col.width) else t
  }

  /**
   * A column whose own title has no arrow shows one exactly when it is the
   * sort column; a right-aligned title fills its width and ends with the
   * unpadded title.
   */
  lemma ColumnTitleShape(col: ColumnSpec, isSortColumn: bool, dir: SortDirection)
    requires !HasArrow(col.title)
    ensures HasArrow(ColumnTitle(col, isSortColumn, dir)) <==> isSortColumn
    ensures var t := if isSortColumn then Arrow(dir) + col.title else col.title;
      var r := ColumnTitle(col, isSortColumn, dir);
      |r| >= |t| && r[|r| - |t|..] == t && (col.rightAligned ==> |r| >= col.width) &&
      (forall i :: 0 <= i < |r| - |t| ==> r[i] == ' ')
  {
    var t := if isSortColumn then Arrow(dir) + col.title else col.title;
    var r := ColumnTitle(col, isSortColumn, dir);
    if isSortColumn {
      assert r[|r| - |t|] == t[0];
    } else {
      forall i | 0 <= i < |r|
        ensures !IsArrow(r[i])
      {
        if i >= |r| - |t| {
          assert r[i] == t[i - (|r| - |t|)];
        }
      }
    }
  }

  /** Selected: the row id of the selected row, or "" when no row is selected or the table has no row-id function. */
  function Selected(selectedRow: Option<seq<string>>, rowId: Option<seq<string> -> string>): (r: string)
    ensures selectedRow.None? || rowId.None? ==> r == ""
    ensures selectedRow.Some? && rowId.Some? ==> r == rowId.value(selectedRow.value)
  {
    if selectedRow.Some? && rowId.Some? then rowId.value(selectedRow.value) else ""
  }

  /** The table's sort state over its columns. */
  class Table {
    const columns: seq<ColumnSpec>
    var sortColumn: nat
    var sortDirection: SortDirection

    ghost predicate Valid()
      reads this
    {
      sortColumn < |columns| && HasSortable(columns)
    }

    /** newSortableTableModel: the configured columns and default sort. */
    constructor (cols: seq<ColumnSpec>, defaultColumn: nat, defaultDir: SortDirection)
      requires defaultColumn < |cols| && HasSortable(cols)
      ensures columns == cols && sortColumn == defaultColumn && sortDirection == defaultDir
      ensures Valid()
    {
      columns := cols;
      sortColumn := defaultColumn;
      sortDirection := defaultDir;
    }

    /** sortNextColumn: step forward, past unsortable columns. */
    method SortNextColumn()
      requires Valid()
      modifies this`sortColumn
      ensures Valid() && columns[sortColumn].sortable
      ensures FirstSortableAfter(columns, old(sortColumn), sortColumn)
    {
      var n := |columns|;
      var from := sortColumn;
      ForwardStep(from, 0, n);
      var newCol := (from + 1) % n;
      ghost var steps := 1;
      while !columns[newCol].sortable
        invariant 1 <= steps <= n && newCol == Forward(from, steps, n)
        invariant forall k :: 1 <= k < steps ==> !columns[Forward(from, k, n)].sortable
        decreases n - steps
      {
        if steps == n {
          var j :| 0 <= j < n && columns[j].sortable;
          ForwardCovers(from, n, j);
          assert false;
        }
        ForwardStep(from, steps, n);
        newCol := (newCol + 1) % n;
        steps := steps + 1;
      }
      sortColumn := newCol;
    }

    /** sortPrevColumn: step backward, past unsortable columns. */
    method SortPrevColumn()
      requires Valid()
      modifies this`sortColumn
      ensures Valid() && columns[sortColumn].sortable
      ensures FirstSortableBefore(columns, old(sortColumn), sortColumn)
    {
      var n := |columns|;
      var from := sortColumn;
      BackwardStep(from, 0, n);
      var newCol := (from - 1 + n) % n;
      ghost var steps := 1;
      while !columns[newCol].sortable
        invariant 1 <= steps <= n && newCol == Backward(from, steps, n)
        invariant forall k :: 1 <= k < steps ==> !columns[Backward(from, k, n)].sortable
        decreases n - steps
      {
        if steps == n {
          var j :| 0 <= j < n && columns[j].sortable;
          BackwardCovers(from, n, j);
          assert false;
        }
        BackwardStep(from, steps, n);
        newCol := (newCol - 1 + n) % n;
        steps := steps + 1;
      }
      sortColumn := newCol;
    }

    /** reverseSortDir. */
    method ReverseSortDir()
      modifies this`sortDirection
      ensures sortDirection == Reversed(old(sortDirection))
    {
      if sortDirection == SortAsc {
        sortDirection := SortDesc;
      } else {
        sortDirection := SortAsc;
      }
    }

    /** getTableColumns: one title per column, in column order, with its width. */
    method TableColumns() returns (titles: seq<(string, nat)>)
      ensures |titles| == |columns|
      ensures forall i :: 0 <= i < |columns| ==>
        titles[i] == (ColumnTitle(columns[i], i == sortColumn, sortDirection), columns[i].width)
    {
      titles := [];
      var i := 0;
      while i < |columns|
        invariant 0 <= i <= |columns| && |titles| == i
        invariant forall j :: 0 <= j < i ==>
          titles[j] == (ColumnTitle(columns[j], j == sortColumn, sortDirection), columns[j].width)
      {
        var col := columns[i];
        var title := col.title;
        if i == sortColumn {
          if sortDirection == SortAsc {
            title := "\U{2191} " + title;
          } else {
            title := "\U{2193} " + title;
          }
        }
        if col.rightAligned {
          title := PadLeft(title, col.width);
        }
        titles := titles + [(title, col.width)];
        i := i + 1;
      }
    }
  }

  /** A cell value as compareAny sees it: the four kinds it can compare. */
  datatype CellValue = StrCell(s: string) | IntCell(i: int) | RealCell(x: real) | TimeCell(d: Date)

  predicate SameKind(a: CellValue, b: CellValue) {
    (a.StrCell? && b.StrCell?) || (a.IntCell? && b.IntCell?) ||
    (a.RealCell? && b.RealCell?) || (a.TimeCell? && b.TimeCell?)
  }

  /** The ascending order of two cells of one kind. */
  predicate InOrder(a: CellValue, b: CellValue)
    requires SameKind(a, b)
  {
    match a
    case StrCell(s) => StrLess(s, b.s)
    case IntCell(i) => i < b.i
    case RealCell(x) => x < b.x
    case TimeCell(d) => Before(d, b.d)
  }

  /**
   * compareAny as written: the ascending test, negated for a descending
   * sort. Cells of different kinds make the program panic: None.
   */
  function CompareAny(a: CellValue, b: CellValue, dir: SortDirection): (r: Option<bool>)
    ensures r.Some? <==> SameKind(a, b)
  {
    if !SameKind(a, b) then None
    else
      var inOrder := InOrder(a, b);
      if dir == SortDesc then Some(!inOrder) else Some(inOrder)
  }

  /** The descending answer is the negation of the ascending one. */
  lemma CompareAnyDescNegates(a: CellValue, b: CellValue)
    requires SameKind(a, b)
    ensures CompareAny(a, b, SortDesc) == Some(!CompareAny(a, b, SortAsc).value)
  {
  }

  /**
   * As written, the descending comparison says a cell sorts before itself,
   * so it is not the strict order a sort's less function must be.
   */
  lemma CompareAnyDescReflexive(a: CellValue)
    ensures CompareAny(a, a, SortDesc) == Some(true)
  {
    match a
    case StrCell(s) => StrLessIrreflexive(s);
    case IntCell(i) =>
    case RealCell(x) =>
    case TimeCell(d) =>
  }

  /** The comparison with the descending case reversed instead of negated. */
  function CompareStrict(a: CellValue, b: CellValue, dir: SortDirection): (r: Option<bool>)
    ensures r.Some? <==> SameKind(a, b)
  {
    if !SameKind(a, b) then None
    else if dir == SortDesc then Some(InOrder(b, a)) else Some(InOrder(a, b))
  }

  lemma InOrderStrict(a: CellValue, b: CellValue)
    requires SameKind(a, b)
    ensures !(InOrder(a, b) && InOrder(b, a)) && !InOrder(a, a)
  {
    match a
    case StrCell(s) =>
      StrLessIrreflexive(s);
      if InOrder(a, b) && InOrder(b, a) {
        StrLessTransitive(s, b.s, s);
      }
    case IntCell(i) =>
    case RealCell(x) =>
    case TimeCell(d) =>
  }

  /** In both directions the corrected comparison is irreflexive and asymmetric, and it agrees with compareAny on unequal ascending pairs. */
  lemma CompareStrictIsStrict(a: CellValue, b: CellValue, dir: SortDirection)
    requires SameKind(a, b)
    ensures CompareStrict(a, a, dir) == Some(false)
    ensures !(CompareStrict(a, b, dir).value && CompareStrict(b, a, dir).value)
    ensures CompareStrict(a, b, SortAsc) == CompareAny(a, b, SortAsc)
  {
    InOrderStrict(a, b);
  }
}
