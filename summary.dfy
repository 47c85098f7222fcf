/**
 * The summary view: how many transactions are income and how many are
 * not, their totals, and for each type the five largest categories and
 * accounts, the fifth folding everything smaller into one entry.
 */
module Summary {
  import opened Transactions
  import opened Sorting
  import opened Listing

  const MaxSummaryEntries: nat := 5
  const EverythingElse: string := "Everything else"

  /** A summary line: a category or account name and its amount. */
  type SummaryEntry = Entry<string, real>

  /** The number of Income transactions. */
  function IncomeCount(txns: seq<Transaction>): nat {
    if txns == [] then 0
    else IncomeCount(txns[..|txns| - 1]) + (if txns[|txns| - 1].txnType == Income then 1 else 0)
  }

  /** The number of transactions of any other type. */
  function OtherCount(txns: seq<Transaction>): nat {
    if txns == [] then 0
    else OtherCount(txns[..|txns| - 1]) + (if txns[|txns| - 1].txnType != Income then 1 else 0)
  }

  /** The amount of the Income transactions. */
  function IncomeTotal(txns: seq<Transaction>): real {
    if txns == [] then 0.0
    else IncomeTotal(txns[..|txns| - 1]) + (if txns[|txns| - 1].txnType == Income then txns[|txns| - 1].amount else 0.0)
  }

  /** The amount of the transactions of any other type. */
  function OtherTotal(txns: seq<Transaction>): real {
    if txns == [] then 0.0
    else OtherTotal(txns[..|txns| - 1]) + (if txns[|txns| - 1].txnType != Income then txns[|txns| - 1].amount else 0.0)
  }

  /** The amount of all transactions. */
  function AmountTotal(txns: seq<Transaction>): real {
    if txns == [] then 0.0 else AmountTotal(txns[..|txns| - 1]) + txns[|txns| - 1].amount
  }

  /** Every transaction is counted once, as income or as expense, and so is its amount. */
  lemma {:induction false} CountsCover(txns: seq<Transaction>)
    ensures IncomeCount(txns) + OtherCount(txns) == |txns|
    ensures IncomeTotal(txns) + OtherTotal(txns) == AmountTotal(txns)
  {
    if txns != [] {
      CountsCover(txns[..|txns| - 1]);
    }
  }

  /** The loop of SetTransactions: Income transactions are counted and summed as income, every other one as expense. */
  method CountTransactions(txns: seq<Transaction>) returns (incomeTxnNum: nat, expenseTxnNum: nat, totalIncome: real, totalExpense: real)
    ensures incomeTxnNum == IncomeCount(txns) && expenseTxnNum == OtherCount(txns)
    ensures totalIncome == IncomeTotal(txns) && totalExpense == OtherTotal(txns)
  {
    incomeTxnNum, expenseTxnNum := 0, 0;
    totalIncome, totalExpense := 0.0, 0.0;
    var i := 0;
    while i < |txns|
      invariant 0 <= i <= |txns|
      invariant incomeTxnNum == IncomeCount(txns[..i]) && expenseTxnNum == OtherCount(txns[..i])
      invariant totalIncome == IncomeTotal(txns[..i]) && totalExpense == OtherTotal(txns[..i])
    {
      var tx := txns[i];
      assert txns[..i + 1][..i] == txns[..i];
      if tx.txnType == Income {
        incomeTxnNum := incomeTxnNum + 1;
        totalIncome := totalIncome + tx.amount;
      } else {
        expenseTxnNum := expenseTxnNum + 1;
        totalExpense := totalExpense + tx.amount;
      }
      i := i + 1;
    }
    assert txns[..i] == txns;
  }

  /** Which name a top list groups by. */
  datatype KeyKind = ByCategory | ByAccount

  function KeyOf(kind: KeyKind, t: Transaction): string {
    match kind
    case ByCategory => t.category
    case ByAccount => t.account
  }

  /** The map getTopCategories and getTopAccounts fill: per name, the amount of the transactions of type `txnType`. */
  function SumsBy(txns: seq<Transaction>, txnType: TxnType, kind: KeyKind): map<string, real> {
    if txns == [] then map[]
    else
      var m := SumsBy(txns[..|txns| - 1], txnType, kind);
      var t := txns[|txns| - 1];
      if t.txnType != txnType then m
      else
        var k := KeyOf(kind, t);
        m[k := (if k in m then m[k] else 0.0) + t.amount]
  }

  /** The amount of the transactions of type `txnType` whose name is `k`. */
  function KeySum(txns: seq<Transaction>, txnType: TxnType, kind: KeyKind, k: string): real {
    if txns == [] then 0.0
    else
      var t := txns[|txns| - 1];
      KeySum(txns[..|txns| - 1], txnType, kind, k) + (if t.txnType == txnType && KeyOf(kind, t) == k then t.amount else 0.0)
  }

  /** The amount of the transactions of type `txnType`. */
  function TypeTotal(txns: seq<Transaction>, txnType: TxnType): real {
    if txns == [] then 0.0
    else
      var t := txns[|txns| - 1];
      TypeTotal(txns[..|txns| - 1], txnType) + (if t.txnType == txnType then t.amount else 0.0)
  }

  /** A name has an entry exactly when some transaction of the type carries it. */
  lemma {:induction false} SumsByKeys(txns: seq<Transaction>, txnType: TxnType, kind: KeyKind, k: string)
    ensures k in SumsBy(txns, txnType, kind) <==>
      exists i :: 0 <= i < |txns| && txns[i].txnType == txnType && KeyOf(kind, txns[i]) == k
  {
    if txns != [] {
      var init := txns[..|txns| - 1];
      SumsByKeys(init, txnType, kind, k);
      if exists i :: 0 <= i < |txns| && txns[i].txnType == txnType && KeyOf(kind, txns[i]) == k {
        var i :| 0 <= i < |txns| && txns[i].txnType == txnType && KeyOf(kind, txns[i]) == k;
        if i < |init| {
          assert init[i] == txns[i];
        }
      }
      if exists i :: 0 <= i < |init| && init[i].txnType == txnType && KeyOf(kind, init[i]) == k {
        var i :| 0 <= i < |init| && init[i].txnType == txnType && KeyOf(kind, init[i]) == k;
        assert txns[i] == init[i];
      }
    }
  }

  /** A name's entry sums the transactions of the type carrying it; a name without an entry has no amount of the type. */
  lemma {:induction false} SumsByValues(txns: seq<Transaction>, txnType: TxnType, kind: KeyKind, k: string)
    ensures k in SumsBy(txns, txnType, kind) ==> SumsBy(txns, txnType, kind)[k] == KeySum(txns, txnType, kind, k)
    ensures k !in SumsBy(txns, txnType, kind) ==> KeySum(txns, txnType, kind, k) == 0.0
  {
    if txns != [] {
      SumsByValues(txns[..|txns| - 1], txnType, kind, k);
    }
  }

  /** The entries together hold the whole amount of the type: transactions of other types contribute nothing. */
  lemma {:induction false} SumsByTotal(txns: seq<Transaction>, txnType: TxnType, kind: KeyKind)
    ensures MapTotal(SumsBy(txns, txnType, kind)) == TypeTotal(txns, txnType)
  {
    if txns == [] {
      var empty: map<string, real> := map[];
      assert SumsBy(txns, txnType, kind) == empty && |empty| == 0;
    } else {
      var init := txns[..|txns| - 1];
      var t := txns[|txns| - 1];
      var m := SumsBy(init, txnType, kind);
      SumsByTotal(init, txnType, kind);
      if t.txnType == txnType {
        var k := KeyOf(kind, t);
        MapTotalAdd(m, k, t.amount);
        assert SumsBy(txns, txnType, kind) == m[k := (if k in m then m[k] else 0.0) + t.amount];
        assert TypeTotal(txns, txnType) == TypeTotal(init, txnType) + t.amount;
      } else {
        assert SumsBy(txns, txnType, kind) == m;
        assert TypeTotal(txns, txnType) == TypeTotal(init, txnType);
      }
    }
  }

  /** The order of sortAndTruncate: a larger value first. */
  function ValueGe(a: SummaryEntry, b: SummaryEntry): bool {
    a.value >= b.value
  }

  lemma ValueGePreorder()
    ensures TotalPreorder(ValueGe)
  {
  }

  /** Values never increase along the list. */
  ghost predicate Descending(es: seq<SummaryEntry>) {
    forall i, j :: 0 <= i < j < |es| ==> es[i].value >= es[j].value
  }

  /**
   * What sortAndTruncate promises of `r` for the map `input`: at most five
   * entries holding the whole total; with at most five names, every name
   * with its value, largest first; with more, the four largest names with
   * their values, largest first, then "Everything else" holding the rest.
   */
  ghost predicate Summarises(r: seq<SummaryEntry>, input: map<string, real>) {
    |r| <= MaxSummaryEntries && Total(r) == MapTotal(input) &&
    (|input| <= MaxSummaryEntries ==> Lists(r, input) && Descending(r)) &&
    (|input| > MaxSummaryEntries ==> Folded(r, input))
  }

  /** The shape of the summary of more than five names. */
  ghost predicate Folded(r: seq<SummaryEntry>, input: map<string, real>) {
    |r| == MaxSummaryEntries && TopFour(r, input) &&
    r[4].key == EverythingElse && r[4].value == MapTotal(input) - Total(r[..4])
  }

  /** The first four entries are the four largest names of `input` with their values, largest first. */
  ghost predicate TopFour(r: seq<SummaryEntry>, input: map<string, real>)
    requires |r| >= 4
  {
    Descending(r[..4]) &&
    (forall i :: 0 <= i < 4 ==> r[i].key in input && input[r[i].key] == r[i].value) &&
    (forall i, j :: 0 <= i < j < 4 ==> r[i].key != r[j].key) &&
    (forall k :: k in input && (forall i :: 0 <= i < 4 ==> r[i].key != k) ==> input[k] <= r[3].value)
  }

  /** sortAndTruncate: list the map, sort by value descending, and fold everything past the fourth entry into one. */
  method SortAndTruncate(input: map<string, real>) returns (r: seq<SummaryEntry>)
    ensures Summarises(r, input)
  {
    var entries := ListMap(input);
    var sorted := SortBy(entries, ValueGe);
    SortedListing(input, entries);
    if |sorted| > MaxSummaryEntries {
      var sumOfRemaining := SumFrom(sorted, MaxSummaryEntries - 1);
      r := sorted[..4] + [Entry(EverythingElse, sumOfRemaining)];
      Fold(input, sorted, r, sumOfRemaining);
    } else {
      r := sorted;
      Whole(input, sorted);
    }
  }

  /** The loop summing the values from position `from` on. */
  method SumFrom(es: seq<SummaryEntry>, from: nat) returns (sum: real)
    requires from <= |es|
    ensures sum == Total(es[from..])
  {
    sum := 0.0;
    var i := from;
    while i < |es|
      invariant from <= i <= |es|
      invariant sum == Total(es[from..i])
    {
      assert es[from..i + 1][..i - from] == es[from..i];
      sum := sum + es[i].value;
      i := i + 1;
    }
    assert es[from..i] == es[from..];
  }

  /** Sorting a listing by value keeps it a listing of the map, now in descending order. */
  lemma SortedListing(input: map<string, real>, entries: seq<SummaryEntry>)
    requires Lists(entries, input)
    ensures var sorted := SortBy(entries, ValueGe);
      Lists(sorted, input) && SortedBy(sorted, ValueGe) &&
      Total(sorted) == MapTotal(input) && |sorted| == |input|
  {
    var sorted := SortBy(entries, ValueGe);
    ValueGePreorder();
    SortBySorted(entries, ValueGe);
    ListsPermutation(input, entries, sorted);
    ListsTotal(sorted, input);
    ListsLength(sorted, input);
  }

  /** With at most five names the sorted listing is the summary. */
  lemma Whole(input: map<string, real>, sorted: seq<SummaryEntry>)
    requires Lists(sorted, input) && SortedBy(sorted, ValueGe)
    requires Total(sorted) == MapTotal(input) && |sorted| == |input| <= MaxSummaryEntries
    ensures Summarises(sorted, input)
  {
    assert Descending(sorted) by {
      forall i, j | 0 <= i < j < |sorted| ensures sorted[i].value >= sorted[j].value {
        assert ValueGe(sorted[i], sorted[j]);
      }
    }
  }

  /** The folded list keeps the four largest entries, largest first, and the total. */
  lemma Fold(input: map<string, real>, sorted: seq<SummaryEntry>, r: seq<SummaryEntry>, rest: real)
    requires Lists(sorted, input) && SortedBy(sorted, ValueGe) && |sorted| == |input| > MaxSummaryEntries
    requires Total(sorted) == MapTotal(input) && rest == Total(sorted[4..])
    requires r == sorted[..4] + [Entry(EverythingElse, rest)]
    ensures Summarises(r, input)
  {
    FoldTotal(sorted, r, rest);
    assert r[..4] == sorted[..4];
    FoldShape(input, sorted, r);
    assert r[4].key == EverythingElse;
  }

  lemma FoldShape(input: map<string, real>, sorted: seq<SummaryEntry>, r: seq<SummaryEntry>)
    requires Lists(sorted, input) && SortedBy(sorted, ValueGe) && |sorted| > 4
    requires |r| > 4 && r[..4] == sorted[..4]
    ensures TopFour(r, input)
  {
    FoldLargest(input, sorted, r);
    FoldDescending(sorted, r);
    assert forall i :: 0 <= i < 4 ==> r[i] == r[..4][i] == sorted[i];
  }

  lemma FoldDescending(sorted: seq<SummaryEntry>, r: seq<SummaryEntry>)
    requires SortedBy(sorted, ValueGe) && |sorted| > 4 && |r| > 4 && r[..4] == sorted[..4]
    ensures Descending(r[..4])
  {
    forall i, j | 0 <= i < j < 4 ensures r[..4][i].value >= r[..4][j].value {
      assert r[..4][i] == sorted[i] && r[..4][j] == sorted[j];
      assert ValueGe(sorted[i], sorted[j]);
    }
  }

  lemma FoldTotal(sorted: seq<SummaryEntry>, r: seq<SummaryEntry>, rest: real)
    requires |sorted| > 4 && rest == Total(sorted[4..])
    requires r == sorted[..4] + [Entry(EverythingElse, rest)]
    ensures Total(r) == Total(sorted) && r[4].value == Total(sorted) - Total(r[..4])
  {
    assert sorted[..4] + sorted[4..] == sorted;
    TotalAppend(sorted[..4], sorted[4..]);
    TotalAppend(sorted[..4], [Entry(EverythingElse, rest)]);
    assert r[..4] == sorted[..4];
  }

  lemma FoldLargest(input: map<string, real>, sorted: seq<SummaryEntry>, r: seq<SummaryEntry>)
    requires Lists(sorted, input) && SortedBy(sorted, ValueGe) && |sorted| > 4 && |r| > 4
    requires r[..4] == sorted[..4]
    ensures forall k :: k in input && (forall i :: 0 <= i < 4 ==> r[i].key != k) ==> input[k] <= r[3].value
  {
    assert forall i :: 0 <= i < 4 ==> r[i] == r[..4][i] == sorted[i];
    forall k | k in input && (forall i :: 0 <= i < 4 ==> r[i].key != k)
      ensures input[k] <= r[3].value
    {
      var j :| 0 <= j < |sorted| && sorted[j].key == k;
      assert j >= 4;
      assert ValueGe(sorted[3], sorted[j]);
    }
  }

  /** getTopCategories / getTopAccounts: sum per name over the transactions of the type, then sort and truncate. */
  method TopEntries(txns: seq<Transaction>, txnType: TxnType, kind: KeyKind) returns (r: seq<SummaryEntry>)
    ensures Summarises(r, SumsBy(txns, txnType, kind))
    ensures Total(r) == TypeTotal(txns, txnType)
  {
    var byKey: map<string, real> := map[];
    var i := 0;
    while i < |txns|
      invariant 0 <= i <= |txns|
      invariant byKey == SumsBy(txns[..i], txnType, kind)
    {
      var t := txns[i];
      assert txns[..i + 1][..i] == txns[..i];
      if t.txnType == txnType {
        var k := KeyOf(kind, t);
        byKey := byKey[k := (if k in byKey then byKey[k] else 0.0) + t.amount];
      }
      i := i + 1;
    }
    assert txns[..i] == txns;
    r := SortAndTruncate(byKey);
    SumsByTotal(txns, txnType, kind);
  }

  /** The summary view's state. */
  class SummaryModel {
    var transactions: seq<Transaction>
    var incomeTxnNum: int
    var expenseTxnNum: int
    var totalIncome: real
    var totalExpense: real
    var topIncomeCategories: seq<SummaryEntry>
    var topIncomeAccounts: seq<SummaryEntry>
    var topExpenseCategories: seq<SummaryEntry>
    var topExpenseAccounts: seq<SummaryEntry>

    constructor ()
      ensures transactions == [] && incomeTxnNum == 0 && expenseTxnNum == 0
      ensures totalIncome == 0.0 && totalExpense == 0.0
      ensures topIncomeCategories == [] && topIncomeAccounts == []
      ensures topExpenseCategories == [] && topExpenseAccounts == []
    {
      transactions := [];
      incomeTxnNum, expenseTxnNum := 0, 0;
      totalIncome, totalExpense := 0.0, 0.0;
      topIncomeCategories, topIncomeAccounts := [], [];
      topExpenseCategories, topExpenseAccounts := [], [];
    }

    /**
     * SetTransactions: Income transactions are counted and summed as income,
     * every other transaction as expense; then the four top lists.
     */
    method SetTransactions(txns: seq<Transaction>)
      modifies this
      ensures transactions == txns
      ensures incomeTxnNum == IncomeCount(txns) && expenseTxnNum == OtherCount(txns)
      ensures incomeTxnNum + expenseTxnNum == |txns|
      ensures totalIncome == IncomeTotal(txns) && totalExpense == OtherTotal(txns)
      ensures totalIncome + totalExpense == AmountTotal(txns)
      ensures TopListsOf(txns)
    {
      transactions := txns;
      incomeTxnNum, expenseTxnNum, totalIncome, totalExpense := CountTransactions(txns);
      CountsCover(txns);
      SetTopLists(txns);
    }

    /** Each top list summarises the per-name sums of its type over `txns`. */
    ghost predicate TopListsOf(txns: seq<Transaction>)
      reads this
    {
      Summarises(topIncomeCategories, SumsBy(txns, Income, ByCategory)) &&
      Summarises(topIncomeAccounts, SumsBy(txns, Income, ByAccount)) &&
      Summarises(topExpenseCategories, SumsBy(txns, Expense, ByCategory)) &&
      Summarises(topExpenseAccounts, SumsBy(txns, Expense, ByAccount))
    }

    /** The four top lists of SetTransactions. */
    method SetTopLists(txns: seq<Transaction>)
      modifies this`topIncomeCategories, this`topIncomeAccounts, this`topExpenseCategories, this`topExpenseAccounts
      ensures TopListsOf(txns)
    {
      topIncomeCategories := TopEntries(txns, Income, ByCategory);
      topIncomeAccounts := TopEntries(txns, Income, ByAccount);
      topExpenseCategories := TopEntries(txns, Expense, ByCategory);
      topExpenseAccounts := TopEntries(txns, Expense, ByAccount);
    }
  }
}
