/**
 * The account table: one row per account with its income and expense, a
 * "Total Accounts" row first, five columns of which all but the symbol can
 * be sorted on, and the order the rows are shown in.
 */
module AccountTable {
  import opened Wrappers
  import opened Text
  import opened Numeric
  import opened Transactions
  import opened Sorting
  import opened Listing
  import opened SortableTable
  import Summary

  const AccountNameTotal: string := "Total Accounts"

  datatype AccountColumn = ColSymbol | ColType | ColName | ColIncome | ColExpense

  const NumAccountColumns: nat := 5

  function ColumnIndex(c: AccountColumn): (i: nat)
    ensures i < NumAccountColumns
  {
    match c
    case ColSymbol => 0
    case ColType => 1
    case ColName => 2
    case ColIncome => 3
    case ColExpense => 4
  }

  function ColumnAt(i: nat): (c: AccountColumn)
    requires i < NumAccountColumns
    ensures ColumnIndex(c) == i
  {
    if i == 0 then ColSymbol
    else if i == 1 then ColType
    else if i == 2 then ColName
    else if i == 3 then ColIncome
    else ColExpense
  }

  /** nextColumn. */
  function NextColumn(c: AccountColumn): AccountColumn {
    ColumnAt((ColumnIndex(c) + 1) % NumAccountColumns)
  }

  /** prevColumn. */
  function PrevColumn(c: AccountColumn): AccountColumn {
    ColumnAt((ColumnIndex(c) - 1 + NumAccountColumns) % NumAccountColumns)
  }

  /** Each undoes the other. */
  lemma NextPrevInverse(c: AccountColumn)
    ensures PrevColumn(NextColumn(c)) == c && NextColumn(PrevColumn(c)) == c
  {
    match c
    case ColSymbol =>
    case ColType =>
    case ColName =>
    case ColIncome =>
    case ColExpense =>
  }

  /** Five steps forward visit every column and come back. */
  lemma NextCycle(c: AccountColumn)
    ensures NextColumn(NextColumn(NextColumn(NextColumn(NextColumn(c))))) == c
    ensures {c, NextColumn(c), NextColumn(NextColumn(c)), NextColumn(NextColumn(NextColumn(c))),
      NextColumn(NextColumn(NextColumn(NextColumn(c))))} == {ColSymbol, ColType, ColName, ColIncome, ColExpense}
  {
    match c
    case ColSymbol =>
    case ColType =>
    case ColName =>
    case ColIncome =>
    case ColExpense =>
  }

  predicate RightAligned(c: AccountColumn) {
    c == ColIncome || c == ColExpense
  }

  predicate IsSortable(c: AccountColumn) {
    c != ColSymbol
  }

  function Title(c: AccountColumn): string {
    match c
    case ColSymbol => " "
    case ColType => "Type"
    case ColName => "Account"
    case ColIncome => "Income"
    case ColExpense => "Expense"
  }

  /** The widths of the styles: symbol 2, account type 12, account 25, amounts 10. */
  function Width(c: AccountColumn): nat {
    match c
    case ColSymbol => 2
    case ColType => 12
    case ColName => 25
    case ColIncome => 10
    case ColExpense => 10
  }

  /** The columns as the sortable table is configured with them, in index order. */
  function Columns(): (cols: seq<ColumnSpec>)
    ensures |cols| == NumAccountColumns
    ensures forall i :: 0 <= i < NumAccountColumns ==>
      cols[i] == ColumnSpec(Title(ColumnAt(i)), Width(ColumnAt(i)), RightAligned(ColumnAt(i)), IsSortable(ColumnAt(i)))
  {
    seq(NumAccountColumns, i requires 0 <= i < NumAccountColumns =>
      var c := ColumnAt(i);
      ColumnSpec(Title(c), Width(c), RightAligned(c), IsSortable(c)))
  }

  /**
   * The sortable table's generic stepping is nextColumn and prevColumn on
   * these columns; only the symbol column is unsortable, so from every
   * column the next sortable one is at most two steps away.
   */
  lemma ColumnsCycle(c: AccountColumn)
    ensures Forward(ColumnIndex(c), 1, NumAccountColumns) == ColumnIndex(NextColumn(c))
    ensures Backward(ColumnIndex(c), 1, NumAccountColumns) == ColumnIndex(PrevColumn(c))
    ensures HasSortable(Columns())
    ensures forall i :: 0 <= i < NumAccountColumns ==> (Columns()[i].sortable <==> i != ColumnIndex(ColSymbol))
  {
    assert Columns()[2].sortable;
  }

  /** The default sort: by account name, ascending. */
  const DefaultSortColumn: AccountColumn := ColName
  const DefaultSortDir: SortDirection := SortAsc

  /** accountInfo. */
  datatype AccountInfo = AccountInfo(accountType: AccountType, symbol: string, name: string, income: real, expense: real)

  /** getColumnData: the cell text of a column for an account; amounts as `%.2f`. */
  function ColumnData(c: AccountColumn, a: AccountInfo): string {
    match c
    case ColSymbol => a.symbol
    case ColType => AccountTypeName(a.accountType)
    case ColName => a.name
    case ColIncome => TwoDecimals(a.income)
    case ColExpense => TwoDecimals(a.expense)
  }

  /** An account entry's amounts after one more transaction: Income adds to income, anything else to expense. */
  function Credit(a: AccountInfo, tx: Transaction): AccountInfo {
    if tx.txnType == Income then a.(income := a.income + tx.amount)
    else a.(expense := a.expense + tx.amount)
  }

  /** The entry an account gets when it is first seen: type and symbol of that transaction, no amounts yet. */
  function NewAccount(tx: Transaction): AccountInfo {
    AccountInfo(tx.accountType, AccountSymbol(tx.accountType), tx.account, 0.0, 0.0)
  }

  /** The account map getAccountInfo has built after the transactions `txns`. */
  function AccountMap(txns: seq<Transaction>): map<string, AccountInfo> {
    if txns == [] then map[]
    else
      var m := AccountMap(txns[..|txns| - 1]);
      var tx := txns[|txns| - 1];
      var a := if tx.account in m then m[tx.account] else NewAccount(tx);
      m[tx.account := Credit(a, tx)]
  }

  /** The Income amount of the transactions of account `k`. */
  function AccountIncome(txns: seq<Transaction>, k: string): real {
    if txns == [] then 0.0
    else
      var tx := txns[|txns| - 1];
      AccountIncome(txns[..|txns| - 1], k) + (if tx.account == k && tx.txnType == Income then tx.amount else 0.0)
  }

  /** The amount of the other transactions of account `k`. */
  function AccountExpense(txns: seq<Transaction>, k: string): real {
    if txns == [] then 0.0
    else
      var tx := txns[|txns| - 1];
      AccountExpense(txns[..|txns| - 1], k) + (if tx.account == k && tx.txnType != Income then tx.amount else 0.0)
  }

  /** Position `i` holds the first transaction of account `k`. */
  predicate FirstOf(txns: seq<Transaction>, k: string, i: int) {
    0 <= i < |txns| && txns[i].account == k && forall j :: 0 <= j < i ==> txns[j].account != k
  }

  /** An account has an entry exactly when some transaction names it. */
  lemma {:induction false} AccountMapKeys(txns: seq<Transaction>, k: string)
    ensures k in AccountMap(txns) <==> exists i :: 0 <= i < |txns| && txns[i].account == k
  {
    if txns != [] {
      var init := txns[..|txns| - 1];
      AccountMapKeys(init, k);
      if exists i :: 0 <= i < |txns| && txns[i].account == k {
        var i :| 0 <= i < |txns| && txns[i].account == k;
        if i < |init| {
          assert init[i] == txns[i];
        }
      }
      if exists i :: 0 <= i < |init| && init[i].account == k {
        var i :| 0 <= i < |init| && init[i].account == k;
        assert txns[i] == init[i];
      }
    }
  }

  /**
   * An account's entry carries its name, the type and symbol of the
   * account's first transaction, the sum of its Income amounts as income
   * and the sum of all its other amounts as expense.
   */
  lemma {:induction false} AccountMapEntries(txns: seq<Transaction>, k: string)
    requires k in AccountMap(txns)
    ensures AccountMap(txns)[k].name == k
    ensures AccountMap(txns)[k].income == AccountIncome(txns, k)
    ensures AccountMap(txns)[k].expense == AccountExpense(txns, k)
    ensures exists i :: (FirstOf(txns, k, i) && AccountMap(txns)[k].accountType == txns[i].accountType &&
      AccountMap(txns)[k].symbol == AccountSymbol(txns[i].accountType))
  {
    var init := txns[..|txns| - 1];
    var tx := txns[|txns| - 1];
    var m := AccountMap(init);
    if k in m {
      AccountMapEntries(init, k);
      var i :| FirstOf(init, k, i) && m[k].accountType == init[i].accountType &&
        m[k].symbol == AccountSymbol(init[i].accountType);
      assert txns[i] == init[i];
      forall j | 0 <= j < i ensures txns[j].account != k {
        assert txns[j] == init[j];
      }
      assert FirstOf(txns, k, i);
    } else {
      assert tx.account == k;
      AccountMapKeys(init, k);
      AccountZero(init, k);
      assert FirstOf(txns, k, |txns| - 1) by {
        forall j | 0 <= j < |txns| - 1 ensures txns[j].account != k {
          assert txns[j] == init[j];
        }
      }
    }
  }

  /** An account no transaction names has no amounts. */
  lemma {:induction false} AccountZero(txns: seq<Transaction>, k: string)
    requires forall i :: 0 <= i < |txns| ==> txns[i].account != k
    ensures AccountIncome(txns, k) == 0.0 && AccountExpense(txns, k) == 0.0
  {
    if txns != [] {
      var init := txns[..|txns| - 1];
      assert forall i :: 0 <= i < |init| ==> init[i] == txns[i];
      AccountZero(init, k);
    }
  }

  /** The incomes of the entries, by account. */
  function Incomes(m: map<string, AccountInfo>): map<string, real> {
    map k | k in m :: m[k].income
  }

  function Expenses(m: map<string, AccountInfo>): map<string, real> {
    map k | k in m :: m[k].expense
  }

  /** The entries' incomes add up to the Income total. */
  lemma {:induction false} AccountMapIncomes(txns: seq<Transaction>)
    ensures MapTotal(Incomes(AccountMap(txns))) == Summary.IncomeTotal(txns)
  {
    if txns == [] {
      var empty: map<string, real> := map[];
      assert Incomes(AccountMap(txns)) == empty;
    } else {
      var init := txns[..|txns| - 1];
      var tx := txns[|txns| - 1];
      AccountMapIncomes(init);
      var incomes := Incomes(AccountMap(init));
      assert Summary.IncomeTotal(txns) == Summary.IncomeTotal(init) + (if tx.txnType == Income then tx.amount else 0.0);
      MapTotalAdd(incomes, tx.account, if tx.txnType == Income then tx.amount else 0.0);
      CreditIncome(AccountMap(init), tx);
    }
  }

  /** The entries' expenses add up to the total of everything that is not Income. */
  lemma {:induction false} AccountMapExpenses(txns: seq<Transaction>)
    ensures MapTotal(Expenses(AccountMap(txns))) == Summary.OtherTotal(txns)
  {
    if txns == [] {
      var empty: map<string, real> := map[];
      assert Expenses(AccountMap(txns)) == empty;
    } else {
      var init := txns[..|txns| - 1];
      var tx := txns[|txns| - 1];
      AccountMapExpenses(init);
      var expenses := Expenses(AccountMap(init));
      assert Summary.OtherTotal(txns) == Summary.OtherTotal(init) + (if tx.txnType == Income then 0.0 else tx.amount);
      MapTotalAdd(expenses, tx.account, if tx.txnType == Income then 0.0 else tx.amount);
      CreditExpense(AccountMap(init), tx);
    }
  }

  /** One transaction adds its Income amount to its account's income and changes no other income. */
  lemma CreditIncome(m: map<string, AccountInfo>, tx: Transaction)
    ensures var a := if tx.account in m then m[tx.account] else NewAccount(tx);
      var k := tx.account;
      Incomes(m[k := Credit(a, tx)]) ==
        Incomes(m)[k := (if k in Incomes(m) then Incomes(m)[k] else 0.0) + (if tx.txnType == Income then tx.amount else 0.0)]
  {
  }

  /** One transaction adds any other amount to its account's expense and changes no other expense. */
  lemma CreditExpense(m: map<string, AccountInfo>, tx: Transaction)
    ensures var a := if tx.account in m then m[tx.account] else NewAccount(tx);
      var k := tx.account;
      Expenses(m[k := Credit(a, tx)]) ==
        Expenses(m)[k := (if k in Expenses(m) then Expenses(m)[k] else 0.0) + (if tx.txnType == Income then 0.0 else tx.amount)]
  {
  }

  /** The "Total Accounts" entry: no symbol, the overall type, both totals. */
  function TotalEntry(txns: seq<Transaction>): AccountInfo {
    AccountInfo(AcctOverall, "", AccountNameTotal, Summary.IncomeTotal(txns), Summary.OtherTotal(txns))
  }

  /** An account's key in the account map: its name. */
  function InfoName(a: AccountInfo): string {
    a.name
  }

  /**
   * getAccountInfo: build the map, one entry per account, crediting each
   * transaction to its account and to the totals; then the total entry
   * followed by the map's entries in map order.
   */
  method GetAccountInfo(txns: seq<Transaction>) returns (accounts: seq<AccountInfo>)
    ensures |accounts| >= 1 && accounts[0] == TotalEntry(txns)
    ensures Lists(KeyedBy(accounts[1..], InfoName), AccountMap(txns))
  {
    var totalIncome, totalExpense := 0.0, 0.0;
    var accountMap: map<string, AccountInfo> := map[];
    var i := 0;
    while i < |txns|
      invariant 0 <= i <= |txns|
      invariant accountMap == AccountMap(txns[..i])
      invariant totalIncome == Summary.IncomeTotal(txns[..i]) && totalExpense == Summary.OtherTotal(txns[..i])
    {
      var tx := txns[i];
      assert txns[..i + 1][..i] == txns[..i];
      var account: AccountInfo;
      if tx.account in accountMap {
        account := accountMap[tx.account];
      } else {
        account := AccountInfo(tx.accountType, AccountSymbol(tx.accountType), tx.account, 0.0, 0.0);
      }
      if tx.txnType == Income {
        account := account.(income := account.income + tx.amount);
        totalIncome := totalIncome + tx.amount;
      } else {
        account := account.(expense := account.expense + tx.amount);
        totalExpense := totalExpense + tx.amount;
      }
      accountMap := accountMap[tx.account := account];
      i := i + 1;
    }
    assert txns[..i] == txns;
    accounts := [AccountInfo(AcctOverall, "", AccountNameTotal, totalIncome, totalExpense)];
    var entries := ListMap(accountMap);
    var j := 0;
    while j < |entries|
      invariant 0 <= j <= |entries| && |accounts| == j + 1
      invariant accounts[0] == TotalEntry(txns)
      invariant forall n :: 0 <= n < j ==> accounts[n + 1] == entries[n].value
    {
      accounts := accounts + [entries[j].value];
      j := j + 1;
    }
    NamesAreKeys(txns, entries, accounts[1..]);
  }

  /** Every entry of the map is named by its key, so the listed values keyed by name are the listing. */
  lemma NamesAreKeys(txns: seq<Transaction>, entries: seq<Entry<string, AccountInfo>>, infos: seq<AccountInfo>)
    requires Lists(entries, AccountMap(txns))
    requires |infos| == |entries| && forall n :: 0 <= n < |entries| ==> infos[n] == entries[n].value
    ensures Lists(KeyedBy(infos, InfoName), AccountMap(txns))
  {
    forall n | 0 <= n < |entries|
      ensures KeyedBy(infos, InfoName)[n] == entries[n]
    {
      AccountMapEntries(txns, entries[n].key);
    }
    assert KeyedBy(infos, InfoName) == entries;
  }

  /** The incomes of the listed entries, keyed by name. */
  function IncomeEntries(infos: seq<AccountInfo>): (es: seq<Entry<string, real>>)
    ensures |es| == |infos| && forall i :: 0 <= i < |infos| ==> es[i] == Entry(infos[i].name, infos[i].income)
  {
    seq(|infos|, i requires 0 <= i < |infos| => Entry(infos[i].name, infos[i].income))
  }

  function ExpenseEntries(infos: seq<AccountInfo>): (es: seq<Entry<string, real>>)
    ensures |es| == |infos| && forall i :: 0 <= i < |infos| ==> es[i] == Entry(infos[i].name, infos[i].expense)
  {
    seq(|infos|, i requires 0 <= i < |infos| => Entry(infos[i].name, infos[i].expense))
  }

  /**
   * The total row holds what the account rows hold between them: its
   * income is the sum of their incomes and its expense the sum of their
   * expenses.
   */
  lemma TotalRowIsSum(txns: seq<Transaction>, accounts: seq<AccountInfo>)
    requires |accounts| >= 1 && accounts[0] == TotalEntry(txns)
    requires Lists(KeyedBy(accounts[1..], InfoName), AccountMap(txns))
    ensures accounts[0].income == Total(IncomeEntries(accounts[1..]))
    ensures accounts[0].expense == Total(ExpenseEntries(accounts[1..]))
  {
    var rest := accounts[1..];
    var m := AccountMap(txns);
    ProjectIncomes(rest, m);
    ProjectExpenses(rest, m);
    ListsTotal(IncomeEntries(rest), Incomes(m));
    ListsTotal(ExpenseEntries(rest), Expenses(m));
    AccountMapIncomes(txns);
    AccountMapExpenses(txns);
  }

  /** The account rows after the total row name exactly the accounts the transactions are of. */
  lemma AccountRows(txns: seq<Transaction>, accounts: seq<AccountInfo>)
    requires |accounts| >= 1
    requires Lists(KeyedBy(accounts[1..], InfoName), AccountMap(txns))
    ensures (set a | a in accounts[1..] :: a.name) == (set tx | tx in txns :: tx.account)
  {
    var rest := accounts[1..];
    var names := set a | a in rest :: a.name;
    var named := set tx | tx in txns :: tx.account;
    forall k | k in names ensures k in named {
      var a :| a in rest && a.name == k;
      var i :| 0 <= i < |rest| && rest[i] == a;
      assert KeyedBy(rest, InfoName)[i].key == k;
      AccountMapKeys(txns, k);
      var j :| 0 <= j < |txns| && txns[j].account == k;
      assert txns[j] in txns;
    }
    forall k | k in named ensures k in names {
      var tx :| tx in txns && tx.account == k;
      var j :| 0 <= j < |txns| && txns[j] == tx;
      AccountMapKeys(txns, k);
      var i :| 0 <= i < |KeyedBy(rest, InfoName)| && KeyedBy(rest, InfoName)[i].key == k;
      assert rest[i] in rest;
    }
  }

  /** A listing of the entries lists their incomes. */
  lemma ProjectIncomes(infos: seq<AccountInfo>, m: map<string, AccountInfo>)
    requires Lists(KeyedBy(infos, InfoName), m)
    ensures Lists(IncomeEntries(infos), Incomes(m))
  {
    var es := IncomeEntries(infos);
    forall k | k in Incomes(m)
      ensures exists i :: 0 <= i < |es| && es[i].key == k
    {
      var i :| 0 <= i < |KeyedBy(infos, InfoName)| && KeyedBy(infos, InfoName)[i].key == k;
      assert es[i].key == k;
    }
    forall i, j | 0 <= i < j < |es|
      ensures es[i].key != es[j].key
    {
      assert KeyedBy(infos, InfoName)[i].key != KeyedBy(infos, InfoName)[j].key;
    }
  }

  /** A listing of the entries lists their expenses. */
  lemma ProjectExpenses(infos: seq<AccountInfo>, m: map<string, AccountInfo>)
    requires Lists(KeyedBy(infos, InfoName), m)
    ensures Lists(ExpenseEntries(infos), Expenses(m))
  {
    var es := ExpenseEntries(infos);
    forall k | k in Expenses(m)
      ensures exists i :: 0 <= i < |es| && es[i].key == k
    {
      var i :| 0 <= i < |KeyedBy(infos, InfoName)| && KeyedBy(infos, InfoName)[i].key == k;
      assert es[i].key == k;
    }
    forall i, j | 0 <= i < j < |es|
      ensures es[i].key != es[j].key
    {
      assert KeyedBy(infos, InfoName)[i].key != KeyedBy(infos, InfoName)[j].key;
    }
  }

  /**
   * The comparator as written: the total row sorts first, the other rows
   * by the column's text, negated for a descending sort.
   */
  predicate RowLessAsWritten(col: AccountColumn, dir: SortDirection, a: AccountInfo, b: AccountInfo) {
    if a.name == AccountNameTotal then true
    else if b.name == AccountNameTotal then false
    else
      var inOrder := StrLess(ColumnData(col, a), ColumnData(col, b));
      if dir == SortDesc then !inOrder else inOrder
  }

  /**
   * Two accounts whose column text is equal, sorted descending: each is
   * "less" than the other, so the comparator is not a strict order.
   */
  lemma RowLessAsWrittenNotStrict()
    ensures var a := AccountInfo(Cash, CashSymbol, "Wallet", 0.0, 0.0);
      var b := AccountInfo(Cash, CashSymbol, "Purse", 0.0, 0.0);
      RowLessAsWritten(ColType, SortDesc, a, b) && RowLessAsWritten(ColType, SortDesc, b, a)
  {
    StrLessIrreflexive(AccountTypeName(Cash));
  }

  /** The comparator with a descending sort reversing the operands instead of negating the result. */
  predicate RowLess(col: AccountColumn, dir: SortDirection, a: AccountInfo, b: AccountInfo) {
    if a.name == AccountNameTotal then b.name != AccountNameTotal
    else if b.name == AccountNameTotal then false
    else if dir == SortDesc then StrLess(ColumnData(col, b), ColumnData(col, a))
    else StrLess(ColumnData(col, a), ColumnData(col, b))
  }

  /**
   * The corrected comparator keeps the total row first, orders the other
   * rows by the column's text (reversed when descending), and agrees with
   * the written one wherever their column texts differ.
   */
  lemma RowLessMeaning(col: AccountColumn, dir: SortDirection, a: AccountInfo, b: AccountInfo)
    ensures a.name == AccountNameTotal && b.name != AccountNameTotal ==> RowLess(col, dir, a, b) && !RowLess(col, dir, b, a)
    ensures a.name != AccountNameTotal && b.name != AccountNameTotal ==>
      (RowLess(col, dir, a, b) <==>
        if dir == SortAsc then StrLess(ColumnData(col, a), ColumnData(col, b))
        else StrLess(ColumnData(col, b), ColumnData(col, a)))
    ensures a.name != AccountNameTotal && b.name != AccountNameTotal && ColumnData(col, a) != ColumnData(col, b) ==>
      (RowLess(col, dir, a, b) <==> RowLessAsWritten(col, dir, a, b))
  {
    var x, y := ColumnData(col, a), ColumnData(col, b);
    if x != y {
      StrLessTrichotomy(x, y);
      if StrLess(x, y) && StrLess(y, x) {
        StrLessTransitive(x, y, x);
        StrLessIrreflexive(x);
      }
    }
  }

  /** "Not after": the total preorder a sort by RowLess produces. */
  function RowLe(col: AccountColumn, dir: SortDirection): (AccountInfo, AccountInfo) -> bool {
    (a: AccountInfo, b: AccountInfo) => !RowLess(col, dir, b, a)
  }

  /** RowLess is a strict weak order, so "not after" is a total preorder to sort by. */
  lemma RowLePreorder(col: AccountColumn, dir: SortDirection)
    ensures TotalPreorder(RowLe(col, dir))
  {
    var le := RowLe(col, dir);
    forall a, b
      ensures le(a, b) || le(b, a)
    {
      RowLessAsymmetric(col, dir, a, b);
    }
    forall a, b, c | le(a, b) && le(b, c)
      ensures le(a, c)
    {
      if RowLess(col, dir, c, a) {
        RowLessNegTransitive(col, dir, a, b, c);
      }
    }
  }

  lemma RowLessAsymmetric(col: AccountColumn, dir: SortDirection, a: AccountInfo, b: AccountInfo)
    ensures !(RowLess(col, dir, a, b) && RowLess(col, dir, b, a))
  {
    var x, y := ColumnData(col, a), ColumnData(col, b);
    if StrLess(x, y) && StrLess(y, x) {
      StrLessTransitive(x, y, x);
      StrLessIrreflexive(x);
    }
  }

  /** If `c` is before `a`, then `b` is after `c` or before `a`. */
  lemma RowLessNegTransitive(col: AccountColumn, dir: SortDirection, a: AccountInfo, b: AccountInfo, c: AccountInfo)
    requires RowLess(col, dir, c, a)
    ensures RowLess(col, dir, c, b) || RowLess(col, dir, b, a)
  {
    var x, y, z := ColumnData(col, a), ColumnData(col, b), ColumnData(col, c);
    StrLessTrichotomy(y, z);
    StrLessTrichotomy(x, y);
    if StrLess(z, x) && StrLess(x, y) {
      StrLessTransitive(z, x, y);
    }
    if StrLess(x, z) && StrLess(y, x) {
      StrLessTransitive(y, x, z);
    }
    if StrLess(z, y) && StrLess(y, x) {
      StrLessTransitive(z, y, x);
    }
    if StrLess(x, y) && StrLess(y, z) {
      StrLessTransitive(x, y, z);
    }
  }

  /**
   * The data provider's sort: the rows ordered by the corrected
   * comparator, the same rows, and the total row first.
   */
  method SortAccounts(accounts: seq<AccountInfo>, col: AccountColumn, dir: SortDirection) returns (sorted: seq<AccountInfo>)
    ensures multiset(sorted) == multiset(accounts)
    ensures forall i, j :: 0 <= i < j < |sorted| ==> !RowLess(col, dir, sorted[j], sorted[i])
    ensures (exists i :: 0 <= i < |accounts| && accounts[i].name == AccountNameTotal) ==> sorted[0].name == AccountNameTotal
  {
    RowLePreorder(col, dir);
    sorted := SortBy(accounts, RowLe(col, dir));
    SortBySorted(accounts, RowLe(col, dir));
    if exists i :: 0 <= i < |accounts| && accounts[i].name == AccountNameTotal {
      var i :| 0 <= i < |accounts| && accounts[i].name == AccountNameTotal;
      assert accounts[i] in multiset(sorted);
      var j :| 0 <= j < |sorted| && sorted[j] == accounts[i];
      if j > 0 {
        assert RowLe(col, dir)(sorted[0], sorted[j]);
      }
    }
  }

  /** A right-aligned cell is padded to the column's width. */
  function Cell(c: AccountColumn, a: AccountInfo): string {
    if RightAligned(c) then PadLeft(ColumnData(c, a), Width(c)) else ColumnData(c, a)
  }

  /** An account's row: one cell per column, in column order. */
  function Row(a: AccountInfo): (row: seq<string>)
    ensures |row| == NumAccountColumns
    ensures forall j :: 0 <= j < NumAccountColumns ==> row[j] == Cell(ColumnAt(j), a)
  {
    seq(NumAccountColumns, j requires 0 <= j < NumAccountColumns => Cell(ColumnAt(j), a))
  }

  /** The rows of the data provider, one per account. */
  method FormatRows(accounts: seq<AccountInfo>) returns (rows: seq<seq<string>>)
    ensures |rows| == |accounts|
    ensures forall i :: 0 <= i < |rows| ==> rows[i] == Row(accounts[i])
  {
    rows := [];
    var i := 0;
    while i < |accounts|
      invariant 0 <= i <= |accounts| && |rows| == i
      invariant forall n :: 0 <= n < i ==> rows[n] == Row(accounts[n])
    {
      var row: seq<string> := [];
      var j := 0;
      while j < NumAccountColumns
        invariant 0 <= j <= NumAccountColumns && |row| == j
        invariant forall m :: 0 <= m < j ==> row[m] == Cell(ColumnAt(m), accounts[i])
      {
        var c := ColumnAt(j);
        var colData := ColumnData(c, accounts[i]);
        if RightAligned(c) {
          colData := PadLeft(colData, Width(c));
        }
        row := row + [colData];
        j := j + 1;
      }
      rows := rows + [row];
      i := i + 1;
    }
  }

  /** The table's row id: the account name cell. */
  function RowId(row: seq<string>): string {
    if |row| > ColumnIndex(ColName) then row[ColumnIndex(ColName)] else ""
  }

  /** A selected account row is identified by its account name. */
  lemma SelectedIsName(a: AccountInfo)
    ensures Selected(Some(Row(a)), Some(RowId)) == a.name
  {
    assert Row(a)[2] == Cell(ColName, a);
  }

  /** Row ids tell accounts apart: two account rows give the same selection exactly when they are the same account. */
  lemma SelectedIdentifies(a: AccountInfo, b: AccountInfo)
    ensures Selected(Some(Row(a)), Some(RowId)) == Selected(Some(Row(b)), Some(RowId)) <==> a.name == b.name
  {
    SelectedIsName(a);
    SelectedIsName(b);
  }

  /** The amount cells fill their width and end with the `%.2f` text of the amounts. */
  lemma AmountCells(a: AccountInfo)
    ensures var income := Row(a)[3];
      |income| >= Width(ColIncome) && income[|income| - |TwoDecimals(a.income)|..] == TwoDecimals(a.income)
    ensures var expense := Row(a)[4];
      |expense| >= Width(ColExpense) && expense[|expense| - |TwoDecimals(a.expense)|..] == TwoDecimals(a.expense)
  {
    assert Row(a)[3] == PadLeft(TwoDecimals(a.income), 10);
    assert Row(a)[4] == PadLeft(TwoDecimals(a.expense), 10);
  }
}
