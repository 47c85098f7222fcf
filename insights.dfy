/**
 * The insights panel: for the transactions a filter selects, the income
 * and expense sums, how many Income and Expense transactions there are,
 * and the (at most) three largest of each, largest first.
 */
module Insights {
  import opened Transactions
  import opened Sorting
  import Summary
  import Aggregation

  /** topTxnNum. */
  const TopTxnNum: nat := 3

  /** The matching transactions of type `ty`, in input order. */
  function Picked(txns: seq<Transaction>, matches: Transaction -> bool, ty: TxnType): seq<Transaction> {
    if txns == [] then []
    else
      var t := txns[|txns| - 1];
      Picked(txns[..|txns| - 1], matches, ty) + (if matches(t) && t.txnType == ty then [t] else [])
  }

  /** The picked transactions are the matching transactions of the type, and no others. */
  lemma {:induction false} PickedMembers(txns: seq<Transaction>, matches: Transaction -> bool, ty: TxnType)
    ensures |Picked(txns, matches, ty)| <= |txns|
    ensures forall t :: t in Picked(txns, matches, ty) <==> t in txns && matches(t) && t.txnType == ty
  {
    if txns != [] {
      var t := txns[|txns| - 1];
      var init := txns[..|txns| - 1];
      PickedMembers(init, matches, ty);
      assert txns == init + [t];
    }
  }

  /** The sum of the amounts. */
  function AmountSum(s: seq<Transaction>): real {
    if s == [] then 0.0 else AmountSum(s[..|s| - 1]) + s[|s| - 1].amount
  }

  /** One more transaction: picked when it matches and has the type. */
  lemma PickedStep(txns: seq<Transaction>, i: nat, matches: Transaction -> bool, ty: TxnType)
    requires i < |txns|
    ensures Picked(txns[..i + 1], matches, ty) ==
      Picked(txns[..i], matches, ty) + (if matches(txns[i]) && txns[i].txnType == ty then [txns[i]] else [])
  {
    assert txns[..i + 1][..i] == txns[..i];
  }

  lemma AmountSumStep(s: seq<Transaction>, t: Transaction)
    ensures AmountSum(s + [t]) == AmountSum(s) + t.amount
  {
    assert (s + [t])[..|s|] == s;
  }

  /** Larger amounts first: the order sort.Slice is given, `>` on amounts, with ties allowed either way. */
  predicate ByAmountDesc(a: Transaction, b: Transaction) {
    a.amount >= b.amount
  }

  lemma ByAmountDescPreorder()
    ensures TotalPreorder(ByAmountDesc)
  {
  }

  /** A sorted list cut to its first `TopTxnNum` elements, or whole when it has no more. */
  function Top(s: seq<Transaction>): seq<Transaction> {
    if |s| <= TopTxnNum then s else s[..TopTxnNum]
  }

  /** The top list of `s`: sorted largest first and cut. */
  function TopOf(s: seq<Transaction>): seq<Transaction> {
    Top(SortBy(s, ByAmountDesc))
  }

  /** The top list holds min(|s|, 3) transactions, each one of `s`, largest amount first. */
  lemma TopShape(s: seq<Transaction>)
    ensures |TopOf(s)| == (if |s| <= TopTxnNum then |s| else TopTxnNum)
    ensures multiset(TopOf(s)) <= multiset(s)
    ensures forall i, j :: 0 <= i < j < |TopOf(s)| ==> TopOf(s)[i].amount >= TopOf(s)[j].amount
  {
    var sorted := SortBy(s, ByAmountDesc);
    ByAmountDescPreorder();
    SortBySorted(s, ByAmountDesc);
    var n := if |s| <= TopTxnNum then |s| else TopTxnNum;
    assert TopOf(s) == sorted[..n];
    SortedPrefix(s, sorted, ByAmountDesc, n);
  }

  /** No transaction of `s` left out of the top list has a larger amount than any kept. */
  lemma TopLargest(s: seq<Transaction>)
    ensures forall x, i :: x in multiset(s) - multiset(TopOf(s)) && 0 <= i < |TopOf(s)| ==> TopOf(s)[i].amount >= x.amount
  {
    var sorted := SortBy(s, ByAmountDesc);
    ByAmountDescPreorder();
    SortBySorted(s, ByAmountDesc);
    var n := if |s| <= TopTxnNum then |s| else TopTxnNum;
    assert TopOf(s) == sorted[..n];
    PrefixLargest(s, sorted, n);
  }

  /** In a list sorted largest first, the first `n` are at least as large as any of the rest. */
  lemma PrefixLargest(s: seq<Transaction>, sorted: seq<Transaction>, n: nat)
    requires SortedBy(sorted, ByAmountDesc) && multiset(sorted) == multiset(s) && n <= |sorted|
    ensures forall x, i :: x in multiset(s) - multiset(sorted[..n]) && 0 <= i < n ==> sorted[..n][i].amount >= x.amount
  {
    SortedPrefix(s, sorted, ByAmountDesc, n);
    forall x, i | x in multiset(s) - multiset(sorted[..n]) && 0 <= i < n
      ensures sorted[..n][i].amount >= x.amount
    {
      assert ByAmountDesc(sorted[i], x);
    }
  }

  /** With a filter that selects everything, the sums are the type totals. */
  lemma {:induction false} PickedAll(txns: seq<Transaction>, matches: Transaction -> bool, ty: TxnType)
    requires forall k :: 0 <= k < |txns| ==> matches(txns[k])
    ensures AmountSum(Picked(txns, matches, ty)) == Summary.TypeTotal(txns, ty)
  {
    if txns != [] {
      var init := txns[..|txns| - 1];
      var t := txns[|txns| - 1];
      assert forall k :: 0 <= k < |init| ==> init[k] == txns[k];
      PickedAll(init, matches, ty);
      var p := Picked(init, matches, ty);
      if t.txnType == ty {
        assert matches(t);
        assert Picked(txns, matches, ty) == p + [t];
        assert (p + [t])[..|p + [t]| - 1] == p;
      } else {
        assert Picked(txns, matches, ty) == p;
      }
    }
  }

  /** Transactions of neither type are counted nowhere: the two counts add up to at most the input length. */
  lemma {:induction false} PickedCounts(txns: seq<Transaction>, matches: Transaction -> bool)
    ensures |Picked(txns, matches, Income)| + |Picked(txns, matches, Expense)| <= |txns|
    ensures (forall t :: t in txns ==> matches(t) && t.txnType != NoType) ==>
      |Picked(txns, matches, Income)| + |Picked(txns, matches, Expense)| == |txns|
  {
    if txns != [] {
      var init := txns[..|txns| - 1];
      PickedCounts(init, matches);
      assert forall t :: t in init ==> t in txns;
      assert txns[|txns| - 1] in txns;
    }
  }

  /** The account filter of the panel selects every transaction for the total row. */
  lemma AccountFilterTotal(txns: seq<Transaction>, ty: TxnType)
    ensures AmountSum(Picked(txns, Aggregation.AccountMatch(Aggregation.AccountTable.AccountNameTotal), ty)) ==
      Summary.TypeTotal(txns, ty)
  {
    PickedAll(txns, Aggregation.AccountMatch(Aggregation.AccountTable.AccountNameTotal), ty);
  }

  /** One list's tail of updateInsights: sort it by amount, largest first, and keep at most three. */
  method SortAndCut(txns: seq<Transaction>) returns (top: seq<Transaction>)
    ensures top == TopOf(txns)
  {
    var sorted := SortBy(txns, ByAmountDesc);
    if |txns| <= TopTxnNum {
      top := sorted;
    } else {
      top := sorted[..TopTxnNum];
    }
  }

  /**
   * The loop of updateInsights: each matching Income transaction is added
   * to the income sum and list, each matching Expense transaction to the
   * expense sum and list; any other transaction is skipped.
   */
  method CollectMatching(txns: seq<Transaction>, matches: Transaction -> bool)
    returns (incomeTxns: seq<Transaction>, expenseTxns: seq<Transaction>, income: real, expense: real)
    ensures incomeTxns == Picked(txns, matches, Income) && income == AmountSum(incomeTxns)
    ensures expenseTxns == Picked(txns, matches, Expense) && expense == AmountSum(expenseTxns)
  {
    income, expense := 0.0, 0.0;
    incomeTxns, expenseTxns := [], [];
    var i := 0;
    while i < |txns|
      invariant 0 <= i <= |txns|
      invariant incomeTxns == Picked(txns[..i], matches, Income) && income == AmountSum(incomeTxns)
      invariant expenseTxns == Picked(txns[..i], matches, Expense) && expense == AmountSum(expenseTxns)
    {
      var t := txns[i];
      PickedStep(txns, i, matches, Income);
      PickedStep(txns, i, matches, Expense);
      if matches(t) {
        if t.txnType == Income {
          income := income + t.amount;
          AmountSumStep(incomeTxns, t);
          incomeTxns := incomeTxns + [t];
        } else if t.txnType == Expense {
          expense := expense + t.amount;
          AmountSumStep(expenseTxns, t);
          expenseTxns := expenseTxns + [t];
        }
      }
      i := i + 1;
    }
    assert txns[..i] == txns;
  }

  /** insights, together with the panel that shows them. */
  class InsightsModel {
    var income: real
    var expense: real
    var incomeTxnNum: nat
    var expenseTxnNum: nat
    var topIncomeTxns: seq<Transaction>
    var topExpenseTxns: seq<Transaction>

    /** The insight of the transactions `txns` under the filter `matches`. */
    ghost predicate InsightOf(txns: seq<Transaction>, matches: Transaction -> bool)
      reads this
    {
      var incomes := Picked(txns, matches, Income);
      var expenses := Picked(txns, matches, Expense);
      income == AmountSum(incomes) && expense == AmountSum(expenses) &&
      incomeTxnNum == |incomes| && expenseTxnNum == |expenses| &&
      topIncomeTxns == TopOf(incomes) && topExpenseTxns == TopOf(expenses)
    }

    /** NewInsightsModel: the zero insight. */
    constructor ()
      ensures InsightOf([], (t: Transaction) => true)
    {
      income, expense := 0.0, 0.0;
      incomeTxnNum, expenseTxnNum := 0, 0;
      topIncomeTxns, topExpenseTxns := [], [];
    }

    /**
     * updateInsights: start from the zero insight, add each matching
     * Income and Expense transaction to its sum and its list, count the
     * lists, sort them by amount, largest first, and keep at most three.
     */
    method UpdateInsights(txns: seq<Transaction>, matches: Transaction -> bool)
      modifies this
      ensures InsightOf(txns, matches)
    {
      income, expense := 0.0, 0.0;
      incomeTxnNum, expenseTxnNum := 0, 0;
      topIncomeTxns, topExpenseTxns := [], [];
      var incomeTxns, expenseTxns, incomeSum, expenseSum := CollectMatching(txns, matches);
      income, expense := incomeSum, expenseSum;
      incomeTxnNum := |incomeTxns|;
      expenseTxnNum := |expenseTxns|;
      topIncomeTxns := SortAndCut(incomeTxns);
      topExpenseTxns := SortAndCut(expenseTxns);
    }

    /** SetTransactionsWithAccount: the insight of one account, or of every account for the total row. */
    method SetTransactionsWithAccount(txns: seq<Transaction>, account: string)
      modifies this
      ensures InsightOf(txns, Aggregation.AccountMatch(account))
    {
      UpdateInsights(txns, Aggregation.AccountMatch(account));
    }

    /** SetTransactionsWithCategory: the insight of one category. */
    method SetTransactionsWithCategory(txns: seq<Transaction>, category: string)
      modifies this
      ensures InsightOf(txns, Aggregation.CategoryMatch(category))
    {
      UpdateInsights(txns, Aggregation.CategoryMatch(category));
    }
  }
}
