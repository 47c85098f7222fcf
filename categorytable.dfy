/**
 * The category table: one row per category with the type and symbol of
 * its first transaction, how many transactions it has and their amount,
 * and the text of its five cells.
 */
module CategoryTable {
  import opened Text
  import opened Numeric
  import opened Transactions
  import opened Listing
  import Summary

  datatype CategoryColumn = CatColSymbol | CatColType | CatColName | CatColNumTxns | CatColAmount

  const NumCategoryColumns: nat := 5

  function ColumnAt(i: nat): (c: CategoryColumn)
    requires i < NumCategoryColumns
  {
    if i == 0 then CatColSymbol
    else if i == 1 then CatColType
    else if i == 2 then CatColName
    else if i == 3 then CatColNumTxns
    else CatColAmount
  }

  /** Only the count and the amount are right-aligned. */
  predicate RightAligned(c: CategoryColumn) {
    c == CatColNumTxns || c == CatColAmount
  }

  function Title(c: CategoryColumn): string {
    match c
    case CatColSymbol => " "
    case CatColType => "Type"
    case CatColName => "Category"
    case CatColNumTxns => "Txn Num"
    case CatColAmount => "Amount"
  }

  /** The widths of the styles: symbol 2, type 8, category 20, count 8, amount 10. */
  function Width(c: CategoryColumn): nat {
    match c
    case CatColSymbol => 2
    case CatColType => 8
    case CatColName => 20
    case CatColNumTxns => 8
    case CatColAmount => 10
  }

  /** The widths of the first `n` columns, each with its two cells of padding. */
  function WidthUpTo(n: nat): nat
    requires n <= NumCategoryColumns
  {
    if n == 0 then 0 else WidthUpTo(n - 1) + Width(ColumnAt(n - 1)) + 2
  }

  /** CategoryTableWidth: the widths of all columns plus two cells of padding each. */
  method TableWidth() returns (tableWidth: nat)
    ensures tableWidth == WidthUpTo(NumCategoryColumns) == 58
  {
    tableWidth := 0;
    var i := 0;
    while i < NumCategoryColumns
      invariant 0 <= i <= NumCategoryColumns && tableWidth == WidthUpTo(i)
    {
      tableWidth := tableWidth + Width(ColumnAt(i)) + 2;
      i := i + 1;
    }
  }

  /** A right-aligned column's title is padded on the left to the column's width. */
  function ColumnTitle(c: CategoryColumn): (title: string)
    ensures RightAligned(c) ==> title == PadLeft(Title(c), Width(c)) && |title| == Width(c)
    ensures !RightAligned(c) ==> title == Title(c)
  {
    if RightAligned(c) then PadLeft(Title(c), Width(c)) else Title(c)
  }

  /** categoryInfo. */
  datatype CategoryInfo = CategoryInfo(catType: TxnType, symbol: string, name: string, numTxns: nat, amount: real)

  /** The entry a category gets when it is first seen: the type and its symbol, no transactions yet. */
  function NewCategory(tx: Transaction): CategoryInfo {
    CategoryInfo(tx.txnType, TypeSymbol(tx.txnType), tx.category, 0, 0.0)
  }

  /** One more transaction of the category, whatever its type. */
  function Tally(c: CategoryInfo, tx: Transaction): CategoryInfo {
    c.(numTxns := c.numTxns + 1, amount := c.amount + tx.amount)
  }

  /** The category map getCategoryInfo has built after the transactions `txns`. */
  function CategoryMap(txns: seq<Transaction>): map<string, CategoryInfo> {
    if txns == [] then map[]
    else
      var m := CategoryMap(txns[..|txns| - 1]);
      var tx := txns[|txns| - 1];
      var c := if tx.category in m then m[tx.category] else NewCategory(tx);
      m[tx.category := Tally(c, tx)]
  }

  /** The number of transactions of category `k`. */
  function CategoryCount(txns: seq<Transaction>, k: string): nat {
    if txns == [] then 0
    else CategoryCount(txns[..|txns| - 1], k) + (if txns[|txns| - 1].category == k then 1 else 0)
  }

  /** The amount of the transactions of category `k`, of any type. */
  function CategoryAmount(txns: seq<Transaction>, k: string): real {
    if txns == [] then 0.0
    else CategoryAmount(txns[..|txns| - 1], k) + (if txns[|txns| - 1].category == k then txns[|txns| - 1].amount else 0.0)
  }

  /** Position `i` holds the first transaction of category `k`. */
  predicate FirstOf(txns: seq<Transaction>, k: string, i: int) {
    0 <= i < |txns| && txns[i].category == k && forall j :: 0 <= j < i ==> txns[j].category != k
  }

  /** The categories of some transactions. */
  function Categories(txns: seq<Transaction>): set<string> {
    set tx | tx in txns :: tx.category
  }

  /** There is one entry per category some transaction carries, and no other. */
  lemma {:induction false} CategoryMapKeys(txns: seq<Transaction>)
    ensures CategoryMap(txns).Keys == Categories(txns)
  {
    if txns != [] {
      var init := txns[..|txns| - 1];
      var tx := txns[|txns| - 1];
      CategoryMapKeys(init);
      assert txns == init + [tx];
      assert Categories(txns) == Categories(init) + {tx.category};
    }
  }

  /** A category none of the transactions carries has no transactions and no amount. */
  lemma {:induction false} CategoryZero(txns: seq<Transaction>, k: string)
    requires k !in Categories(txns)
    ensures CategoryCount(txns, k) == 0 && CategoryAmount(txns, k) == 0.0
  {
    if txns != [] {
      var init := txns[..|txns| - 1];
      assert Categories(init) <= Categories(txns) by {
        forall c | c in Categories(init) ensures c in Categories(txns) {
          var tx :| tx in init && tx.category == c;
          assert tx in txns;
        }
      }
      assert txns[|txns| - 1] in txns;
      CategoryZero(init, k);
    }
  }

  /**
   * A category's entry carries its name, the type and type symbol of the
   * category's first transaction, the number of its transactions and
   * the sum of their amounts.
   */
  lemma {:induction false} CategoryMapEntries(txns: seq<Transaction>, k: string)
    requires k in CategoryMap(txns)
    ensures CategoryMap(txns)[k].name == k
    ensures CategoryMap(txns)[k].numTxns == CategoryCount(txns, k)
    ensures CategoryMap(txns)[k].amount == CategoryAmount(txns, k)
    ensures exists i :: (FirstOf(txns, k, i) && CategoryMap(txns)[k].catType == txns[i].txnType &&
      CategoryMap(txns)[k].symbol == TypeSymbol(txns[i].txnType))
  {
    var init := txns[..|txns| - 1];
    var tx := txns[|txns| - 1];
    var m := CategoryMap(init);
    if k in m {
      CategoryMapEntries(init, k);
      var i :| FirstOf(init, k, i) && m[k].catType == init[i].txnType &&
        m[k].symbol == TypeSymbol(init[i].txnType);
      assert txns[i] == init[i];
      forall j | 0 <= j < i ensures txns[j].category != k {
        assert txns[j] == init[j];
      }
      assert FirstOf(txns, k, i);
    } else {
      assert tx.category == k;
      CategoryMapKeys(init);
      CategoryZero(init, k);
      forall j | 0 <= j < |txns| - 1 ensures txns[j].category != k {
        assert txns[j] == init[j];
        assert init[j] in init;
      }
      assert FirstOf(txns, k, |txns| - 1);
    }
  }

  /** The counts of the entries, by category, as numbers the listing can add up. */
  function Counts(m: map<string, CategoryInfo>): map<string, real> {
    map k | k in m :: m[k].numTxns as real
  }

  function Amounts(m: map<string, CategoryInfo>): map<string, real> {
    map k | k in m :: m[k].amount
  }

  /** The counts of all categories add up to the number of transactions. */
  lemma {:induction false} CategoryMapCounts(txns: seq<Transaction>)
    ensures MapTotal(Counts(CategoryMap(txns))) == |txns| as real
  {
    if txns == [] {
      var empty: map<string, real> := map[];
      assert Counts(CategoryMap(txns)) == empty;
    } else {
      var init := txns[..|txns| - 1];
      var tx := txns[|txns| - 1];
      CategoryMapCounts(init);
      var counts := Counts(CategoryMap(init));
      MapTotalAdd(counts, tx.category, 1.0);
      TallyCounts(CategoryMap(init), tx);
    }
  }

  /** The amounts of all categories add up to the amount of all transactions. */
  lemma {:induction false} CategoryMapAmounts(txns: seq<Transaction>)
    ensures MapTotal(Amounts(CategoryMap(txns))) == Summary.AmountTotal(txns)
  {
    if txns == [] {
      var empty: map<string, real> := map[];
      assert Amounts(CategoryMap(txns)) == empty;
    } else {
      var init := txns[..|txns| - 1];
      var tx := txns[|txns| - 1];
      CategoryMapAmounts(init);
      assert Summary.AmountTotal(txns) == Summary.AmountTotal(init) + tx.amount;
      var amounts := Amounts(CategoryMap(init));
      MapTotalAdd(amounts, tx.category, tx.amount);
      TallyAmounts(CategoryMap(init), tx);
    }
  }

  /** One transaction adds one to its category's count and changes no other count. */
  lemma TallyCounts(m: map<string, CategoryInfo>, tx: Transaction)
    ensures var c := if tx.category in m then m[tx.category] else NewCategory(tx);
      var k := tx.category;
      Counts(m[k := Tally(c, tx)]) == Counts(m)[k := (if k in Counts(m) then Counts(m)[k] else 0.0) + 1.0]
  {
  }

  /** One transaction adds its amount to its category's amount and changes no other amount. */
  lemma TallyAmounts(m: map<string, CategoryInfo>, tx: Transaction)
    ensures var c := if tx.category in m then m[tx.category] else NewCategory(tx);
      var k := tx.category;
      Amounts(m[k := Tally(c, tx)]) == Amounts(m)[k := (if k in Amounts(m) then Amounts(m)[k] else 0.0) + tx.amount]
  {
  }

  /** A category's key in the category map: its name. */
  function InfoName(c: CategoryInfo): string {
    c.name
  }

  /**
   * getCategoryInfo: build the map, one entry per category, counting each
   * transaction and adding its amount to its category; then the map's
   * entries in map order.
   */
  method GetCategoryInfo(txns: seq<Transaction>) returns (categories: seq<CategoryInfo>)
    ensures Lists(KeyedBy(categories, InfoName), CategoryMap(txns))
  {
    var categoryMap: map<string, CategoryInfo> := map[];
    var i := 0;
    while i < |txns|
      invariant 0 <= i <= |txns|
      invariant categoryMap == CategoryMap(txns[..i])
    {
      var tx := txns[i];
      assert txns[..i + 1][..i] == txns[..i];
      var cat: CategoryInfo;
      if tx.category in categoryMap {
        cat := categoryMap[tx.category];
      } else {
        cat := CategoryInfo(tx.txnType, TypeSymbol(tx.txnType), tx.category, 0, 0.0);
      }
      cat := cat.(numTxns := cat.numTxns + 1);
      cat := cat.(amount := cat.amount + tx.amount);
      categoryMap := categoryMap[tx.category := cat];
      i := i + 1;
    }
    assert txns[..i] == txns;
    var entries := ListMap(categoryMap);
    categories := [];
    var j := 0;
    while j < |entries|
      invariant 0 <= j <= |entries| && |categories| == j
      invariant forall n :: 0 <= n < j ==> categories[n] == entries[n].value
    {
      categories := categories + [entries[j].value];
      j := j + 1;
    }
    NamesAreKeys(txns, entries, categories);
  }

  /** Every entry of the map is named by its key, so the listed values keyed by name are the listing. */
  lemma NamesAreKeys(txns: seq<Transaction>, entries: seq<Entry<string, CategoryInfo>>, infos: seq<CategoryInfo>)
    requires Lists(entries, CategoryMap(txns))
    requires |infos| == |entries| && forall n :: 0 <= n < |entries| ==> infos[n] == entries[n].value
    ensures Lists(KeyedBy(infos, InfoName), CategoryMap(txns))
  {
    forall n | 0 <= n < |entries|
      ensures KeyedBy(infos, InfoName)[n] == entries[n]
    {
      CategoryMapEntries(txns, entries[n].key);
    }
    assert KeyedBy(infos, InfoName) == entries;
  }

  /**
   * The listed categories are exactly the categories of the transactions,
   * each once.
   */
  lemma CategoryRows(txns: seq<Transaction>, categories: seq<CategoryInfo>)
    requires Lists(KeyedBy(categories, InfoName), CategoryMap(txns))
    ensures (set c | c in categories :: c.name) == Categories(txns)
    ensures forall i, j :: 0 <= i < j < |categories| ==> categories[i].name != categories[j].name
  {
    CategoryMapKeys(txns);
    var names := set c | c in categories :: c.name;
    forall k | k in names ensures k in CategoryMap(txns) {
      var c :| c in categories && c.name == k;
      var i :| 0 <= i < |categories| && categories[i] == c;
      assert KeyedBy(categories, InfoName)[i].key == k;
    }
    forall k | k in CategoryMap(txns) ensures k in names {
      var i :| 0 <= i < |KeyedBy(categories, InfoName)| && KeyedBy(categories, InfoName)[i].key == k;
      assert categories[i] in categories;
    }
    forall i, j | 0 <= i < j < |categories| ensures categories[i].name != categories[j].name {
      assert KeyedBy(categories, InfoName)[i].key != KeyedBy(categories, InfoName)[j].key;
    }
  }

  /** The counts of the listed categories, keyed by name. */
  function CountEntries(infos: seq<CategoryInfo>): (es: seq<Entry<string, real>>)
    ensures |es| == |infos| && forall i :: 0 <= i < |infos| ==> es[i] == Entry(infos[i].name, infos[i].numTxns as real)
  {
    seq(|infos|, i requires 0 <= i < |infos| => Entry(infos[i].name, infos[i].numTxns as real))
  }

  function AmountEntries(infos: seq<CategoryInfo>): (es: seq<Entry<string, real>>)
    ensures |es| == |infos| && forall i :: 0 <= i < |infos| ==> es[i] == Entry(infos[i].name, infos[i].amount)
  {
    seq(|infos|, i requires 0 <= i < |infos| => Entry(infos[i].name, infos[i].amount))
  }

  /** A listing of the entries lists their counts. */
  lemma ProjectCounts(infos: seq<CategoryInfo>, m: map<string, CategoryInfo>)
    requires Lists(KeyedBy(infos, InfoName), m)
    ensures Lists(CountEntries(infos), Counts(m))
  {
    var es := CountEntries(infos);
    forall k | k in Counts(m) ensures exists i :: 0 <= i < |es| && es[i].key == k {
      var i :| 0 <= i < |KeyedBy(infos, InfoName)| && KeyedBy(infos, InfoName)[i].key == k;
      assert es[i].key == k;
    }
    forall i, j | 0 <= i < j < |es| ensures es[i].key != es[j].key {
      assert KeyedBy(infos, InfoName)[i].key != KeyedBy(infos, InfoName)[j].key;
    }
  }

  /** A listing of the entries lists their amounts. */
  lemma ProjectAmounts(infos: seq<CategoryInfo>, m: map<string, CategoryInfo>)
    requires Lists(KeyedBy(infos, InfoName), m)
    ensures Lists(AmountEntries(infos), Amounts(m))
  {
    var es := AmountEntries(infos);
    forall k | k in Amounts(m) ensures exists i :: 0 <= i < |es| && es[i].key == k {
      var i :| 0 <= i < |KeyedBy(infos, InfoName)| && KeyedBy(infos, InfoName)[i].key == k;
      assert es[i].key == k;
    }
    forall i, j | 0 <= i < j < |es| ensures es[i].key != es[j].key {
      assert KeyedBy(infos, InfoName)[i].key != KeyedBy(infos, InfoName)[j].key;
    }
  }

  /**
   * Every transaction is counted in exactly one category, and its amount
   * is added to that category whatever its type: the listed counts add up
   * to the number of transactions, the listed amounts to their amount.
   */
  lemma CategoryTotals(txns: seq<Transaction>, categories: seq<CategoryInfo>)
    requires Lists(KeyedBy(categories, InfoName), CategoryMap(txns))
    ensures Total(CountEntries(categories)) == |txns| as real
    ensures Total(AmountEntries(categories)) == Summary.AmountTotal(txns)
  {
    var m := CategoryMap(txns);
    ProjectCounts(categories, m);
    ProjectAmounts(categories, m);
    ListsTotal(CountEntries(categories), Counts(m));
    ListsTotal(AmountEntries(categories), Amounts(m));
    CategoryMapCounts(txns);
    CategoryMapAmounts(txns);
  }

  /** getCategoryColData: the cell text of a column for a category; the count as `%d`, the amount as `%.2f`. */
  function ColumnData(c: CategoryInfo, col: CategoryColumn): string {
    match col
    case CatColSymbol => c.symbol
    case CatColType => TypeName(c.catType)
    case CatColName => c.name
    case CatColNumTxns => NatToString(c.numTxns)
    case CatColAmount => TwoDecimals(c.amount)
  }

  /** The count cell reads back as the count; the name cell is the name. */
  lemma ColumnDataReadsBack(c: CategoryInfo)
    ensures AllDigits(ColumnData(c, CatColNumTxns)) && NatOf(ColumnData(c, CatColNumTxns)) == c.numTxns
    ensures ColumnData(c, CatColName) == c.name
  {
    NatToStringRoundTrip(c.numTxns);
  }

  /** A cell: the column data, padded on the left to the width when the column is right-aligned. */
  function Cell(c: CategoryInfo, col: CategoryColumn): string {
    if RightAligned(col) then PadLeft(ColumnData(c, col), Width(col)) else ColumnData(c, col)
  }

  /** A category's row: one cell per column, in column order. */
  function Row(c: CategoryInfo): seq<string> {
    seq(NumCategoryColumns, j requires 0 <= j < NumCategoryColumns => Cell(c, ColumnAt(j)))
  }

  /** The count and amount cells fill their width and end with the count and the `%.2f` amount. */
  lemma NumberCells(c: CategoryInfo)
    ensures var count := Row(c)[3];
      |count| >= Width(CatColNumTxns) && count[|count| - |NatToString(c.numTxns)|..] == NatToString(c.numTxns)
    ensures var amount := Row(c)[4];
      |amount| >= Width(CatColAmount) && amount[|amount| - |TwoDecimals(c.amount)|..] == TwoDecimals(c.amount)
    ensures Row(c)[2] == c.name
  {
    var row := Row(c);
    var count := NatToString(c.numTxns);
    var amount := TwoDecimals(c.amount);
    assert row[3] == Cell(c, CatColNumTxns) == PadLeft(count, 8);
    assert row[4] == Cell(c, CatColAmount) == PadLeft(amount, 10);
    assert row[2] == Cell(c, CatColName);
  }

  /** One cell of SetTransactions: the column data, padded to the width when the column is right-aligned. */
  method FormatCell(c: CategoryInfo, col: CategoryColumn) returns (colData: string)
    ensures colData == Cell(c, col)
  {
    colData := ColumnData(c, col);
    if RightAligned(col) {
      colData := PadLeft(colData, Width(col));
    }
  }

  /** A row's first j + 1 cells are its first j cells and the cell of column j. */
  lemma RowStep(c: CategoryInfo, j: nat, colData: string)
    requires j < NumCategoryColumns && colData == Cell(c, ColumnAt(j))
    ensures |Row(c)| == NumCategoryColumns
    ensures Row(c)[..j + 1] == Row(c)[..j] + [colData]
  {
  }

  /** One row of SetTransactions: each column's data, right-aligned columns padded to their width. */
  method FormatRow(c: CategoryInfo) returns (rowData: seq<string>)
    ensures rowData == Row(c)
  {
    rowData := [];
    var j := 0;
    while j < NumCategoryColumns
      invariant 0 <= j <= NumCategoryColumns && rowData == Row(c)[..j]
    {
      var colData := FormatCell(c, ColumnAt(j));
      RowStep(c, j, colData);
      rowData := rowData + [colData];
      j := j + 1;
    }
    RowStep(c, 0, Cell(c, ColumnAt(0)));
    assert Row(c)[..j] == Row(c);
  }

  /** The rows of SetTransactions, one per category. */
  method FormatRows(categories: seq<CategoryInfo>) returns (rows: seq<seq<string>>)
    ensures |rows| == |categories|
    ensures forall i :: 0 <= i < |rows| ==> rows[i] == Row(categories[i])
  {
    rows := [];
    var i := 0;
    while i < |categories|
      invariant 0 <= i <= |categories| && |rows| == i
      invariant forall n :: 0 <= n < i ==> rows[n] == Row(categories[n])
    {
      var rowData := FormatRow(categories[i]);
      rows := rows + [rowData];
      i := i + 1;
    }
  }

  /** The category table: the categories last set and the rows shown for them. */
  class CategoryTableModel {
    var categories: seq<CategoryInfo>
    var rows: seq<seq<string>>

    /** NewCategoryTableModel: no categories and no rows yet. */
    constructor ()
      ensures categories == [] && rows == []
    {
      categories := [];
      rows := [];
    }

    /** SetTransactions: the categories of the transactions and one row per category, in the same order. */
    method SetTransactions(txns: seq<Transaction>)
      modifies this
      ensures Lists(KeyedBy(categories, InfoName), CategoryMap(txns))
      ensures |rows| == |categories|
      ensures forall i :: 0 <= i < |rows| ==> rows[i] == Row(categories[i])
    {
      var cats := GetCategoryInfo(txns);
      var newRows := FormatRows(cats);
      categories := cats;
      rows := newRows;
    }
  }
}
