/**
 * Time-series aggregation: the matching transactions are grouped by the
 * first day of their calendar bucket, each bucket sums its income and its
 * expense, and the buckets come out in ascending date order.
 */
module Aggregation {
  import opened Wrappers
  import opened Civil
  import opened Transactions
  import opened Increments
  import opened Sorting
  import AccountTable

  /** One bar of a time-series chart: a bucket's first day and its sums. */
  datatype ChartEntry = ChartEntry(date: Date, income: real, expense: real)

  /** The first day of the bucket `d` falls in; all time has no buckets (the source panics). */
  function AggLevelDate(d: Date, inc: Increment): (r: Result<Date>)
    ensures r.Success? <==> inc != AllTime
    ensures r.Success? ==> r.value == FirstDayInIncrement(inc, d)
  {
    match inc
    case Weekly => Success(FirstDayOfWeek(d))
    case Monthly => Success(FirstDayOfMonth(d))
    case Quarterly => Success(FirstDayOfQuarter(d))
    case Annually => Success(FirstDayOfYear(d))
    case AllTime => Failure("Unexpected date aggregate level: " + Name(inc))
  }

  /** The bucket start of a transaction. */
  function Key(inc: Increment, t: Transaction): Date {
    FirstDayInIncrement(inc, t.date)
  }

  /** `e` with the amount of `t` added to its income (an Income) or its expense (anything else). */
  function Credit(e: ChartEntry, t: Transaction): ChartEntry {
    if t.txnType == Income then e.(income := e.income + t.amount)
    else e.(expense := e.expense + t.amount)
  }

  /** One iteration of the accumulation loop. */
  function AddTxn(m: map<Date, ChartEntry>, t: Transaction, inc: Increment, matches: Transaction -> bool)
    : Result<map<Date, ChartEntry>>
  {
    if !matches(t) then Success(m)
    else
      var d :- AggLevelDate(t.date, inc);
      var e := if d in m then m[d] else ChartEntry(d, 0.0, 0.0);
      Success(m[d := Credit(e, t)])
  }

  /** The entry map after the accumulation loop has seen all of `txns`. */
  function Accumulate(txns: seq<Transaction>, inc: Increment, matches: Transaction -> bool)
    : Result<map<Date, ChartEntry>>
  {
    if txns == [] then Success(map[])
    else
      var m :- Accumulate(txns[..|txns| - 1], inc, matches);
      AddTxn(m, txns[|txns| - 1], inc, matches)
  }

  /** Sum of the matching Income amounts in bucket `d`. */
  function IncomeIn(txns: seq<Transaction>, inc: Increment, matches: Transaction -> bool, d: Date): real {
    if txns == [] then 0.0
    else
      var t := txns[|txns| - 1];
      IncomeIn(txns[..|txns| - 1], inc, matches, d) +
        (if matches(t) && Key(inc, t) == d && t.txnType == Income then t.amount else 0.0)
  }

  /** Sum of the other matching amounts in bucket `d`. */
  function ExpenseIn(txns: seq<Transaction>, inc: Increment, matches: Transaction -> bool, d: Date): real {
    if txns == [] then 0.0
    else
      var t := txns[|txns| - 1];
      ExpenseIn(txns[..|txns| - 1], inc, matches, d) +
        (if matches(t) && Key(inc, t) == d && t.txnType != Income then t.amount else 0.0)
  }

  /** Sum of all matching amounts in bucket `d`. */
  function AmountIn(txns: seq<Transaction>, inc: Increment, matches: Transaction -> bool, d: Date): real {
    if txns == [] then 0.0
    else
      var t := txns[|txns| - 1];
      AmountIn(txns[..|txns| - 1], inc, matches, d) + (if matches(t) && Key(inc, t) == d then t.amount else 0.0)
  }

  /** Sum of all matching amounts. */
  function MatchingTotal(txns: seq<Transaction>, matches: Transaction -> bool): real {
    if txns == [] then 0.0
    else
      var t := txns[|txns| - 1];
      MatchingTotal(txns[..|txns| - 1], matches) + (if matches(t) then t.amount else 0.0)
  }

  /** The matching transactions, in order. */
  function Filter(txns: seq<Transaction>, matches: Transaction -> bool): seq<Transaction> {
    if txns == [] then []
    else
      var t := txns[|txns| - 1];
      Filter(txns[..|txns| - 1], matches) + (if matches(t) then [t] else [])
  }

  /** Some transaction matches and lands in bucket `d`. */
  predicate HasBucket(txns: seq<Transaction>, inc: Increment, matches: Transaction -> bool, d: Date) {
    exists k :: 0 <= k < |txns| && matches(txns[k]) && Key(inc, txns[k]) == d
  }

  /** Accumulation fails exactly for all time with at least one matching transaction. */
  lemma {:induction false} AccumulateFails(txns: seq<Transaction>, inc: Increment, matches: Transaction -> bool)
    ensures Accumulate(txns, inc, matches).Failure? <==>
              inc == AllTime && exists k :: 0 <= k < |txns| && matches(txns[k])
  {
    if txns != [] {
      var init := txns[..|txns| - 1];
      AccumulateFails(init, inc, matches);
      if inc == AllTime && exists k :: 0 <= k < |init| && matches(init[k]) {
        var k :| 0 <= k < |init| && matches(init[k]);
        assert txns[k] == init[k];
      }
      if exists k :: 0 <= k < |txns| && matches(txns[k]) {
        var k :| 0 <= k < |txns| && matches(txns[k]);
        if k < |init| {
          assert init[k] == txns[k];
        }
      }
    }
  }

  /** What one iteration does to the entry map: only the transaction's own bucket changes, by its amount. */
  lemma AddTxnEffect(m0: map<Date, ChartEntry>, t: Transaction, inc: Increment, matches: Transaction -> bool)
    requires AddTxn(m0, t, inc, matches).Success?
    ensures forall d :: d in AddTxn(m0, t, inc, matches).value <==> d in m0 || (matches(t) && Key(inc, t) == d)
    ensures forall d :: d in m0 && !(matches(t) && Key(inc, t) == d) ==> AddTxn(m0, t, inc, matches).value[d] == m0[d]
    ensures matches(t) ==> (AddTxn(m0, t, inc, matches).value[Key(inc, t)] ==
      Credit(if Key(inc, t) in m0 then m0[Key(inc, t)] else ChartEntry(Key(inc, t), 0.0, 0.0), t))
  {
  }

  /** The entry map holds exactly one entry per bucket start of a matching transaction. */
  lemma {:induction false} AccumulateKeys(txns: seq<Transaction>, inc: Increment, matches: Transaction -> bool, d: Date)
    requires Accumulate(txns, inc, matches).Success?
    ensures d in Accumulate(txns, inc, matches).value <==> HasBucket(txns, inc, matches, d)
  {
    if txns != [] {
      var init := txns[..|txns| - 1];
      AccumulateKeys(init, inc, matches, d);
      AddTxnEffect(Accumulate(init, inc, matches).value, txns[|txns| - 1], inc, matches);
      HasBucketStep(txns, inc, matches, d);
    }
  }

  lemma HasBucketStep(txns: seq<Transaction>, inc: Increment, matches: Transaction -> bool, d: Date)
    requires txns != []
    ensures var t := txns[|txns| - 1];
      HasBucket(txns, inc, matches, d) <==>
        HasBucket(txns[..|txns| - 1], inc, matches, d) || (matches(t) && Key(inc, t) == d)
  {
    var hit := (t: Transaction) => matches(t) && Key(inc, t) == d;
    ExistsLast(txns, hit);
    assert HasBucket(txns, inc, matches, d) <==> exists k :: 0 <= k < |txns| && hit(txns[k]);
    var init := txns[..|txns| - 1];
    assert forall k :: 0 <= k < |init| ==> init[k] == txns[k];
    assert HasBucket(init, inc, matches, d) <==> exists k :: 0 <= k < |init| && hit(txns[k]);
  }

  /** Some element of a non-empty sequence satisfies `p` iff some element before the last one or the last one does. */
  lemma ExistsLast<T>(s: seq<T>, p: T -> bool)
    requires s != []
    ensures (exists k :: 0 <= k < |s| && p(s[k])) <==>
      (exists k :: 0 <= k < |s| - 1 && p(s[k])) || p(s[|s| - 1])
  {
  }

  /** Each entry is dated by its key and holds its bucket's income and expense sums. */
  lemma {:induction false} AccumulateSums(txns: seq<Transaction>, inc: Increment, matches: Transaction -> bool, d: Date)
    requires Accumulate(txns, inc, matches).Success?
    requires d in Accumulate(txns, inc, matches).value
    ensures Accumulate(txns, inc, matches).value[d] ==
      ChartEntry(d, IncomeIn(txns, inc, matches, d), ExpenseIn(txns, inc, matches, d))
  {
    var init := txns[..|txns| - 1];
    var t := txns[|txns| - 1];
    var m0 := Accumulate(init, inc, matches).value;
    AddTxnEffect(m0, t, inc, matches);
    var hit := matches(t) && Key(inc, t) == d;
    assert IncomeIn(txns, inc, matches, d) ==
      IncomeIn(init, inc, matches, d) + (if hit && t.txnType == Income then t.amount else 0.0);
    assert ExpenseIn(txns, inc, matches, d) ==
      ExpenseIn(init, inc, matches, d) + (if hit && t.txnType != Income then t.amount else 0.0);
    if d in m0 {
      AccumulateSums(init, inc, matches, d);
    } else {
      ZeroOutside(init, inc, matches, d);
    }
  }

  /** A bucket without an entry has nothing in it. */
  lemma {:induction false} ZeroOutside(txns: seq<Transaction>, inc: Increment, matches: Transaction -> bool, d: Date)
    requires Accumulate(txns, inc, matches).Success?
    requires d !in Accumulate(txns, inc, matches).value
    ensures IncomeIn(txns, inc, matches, d) == 0.0 && ExpenseIn(txns, inc, matches, d) == 0.0
  {
    if txns != [] {
      var init := txns[..|txns| - 1];
      AddTxnEffect(Accumulate(init, inc, matches).value, txns[|txns| - 1], inc, matches);
      ZeroOutside(init, inc, matches, d);
    }
  }

  lemma AccumulateSnoc(txns: seq<Transaction>, t: Transaction, inc: Increment, matches: Transaction -> bool)
    ensures Accumulate(txns + [t], inc, matches) ==
      if Accumulate(txns, inc, matches).Failure? then Accumulate(txns, inc, matches)
      else AddTxn(Accumulate(txns, inc, matches).value, t, inc, matches)
  {
    assert (txns + [t])[..|txns|] == txns;
  }

  /** A transaction the filter rejects changes nothing: only the matching ones count. */
  lemma {:induction false} NonMatchingIgnored(txns: seq<Transaction>, inc: Increment, matches: Transaction -> bool)
    ensures Accumulate(Filter(txns, matches), inc, matches) == Accumulate(txns, inc, matches)
  {
    if txns != [] {
      var init := txns[..|txns| - 1];
      var t := txns[|txns| - 1];
      NonMatchingIgnored(init, inc, matches);
      assert txns == init + [t];
      assert Filter(txns, matches) == Filter(init, matches) + (if matches(t) then [t] else []);
      AccumulateSnoc(init, t, inc, matches);
      if matches(t) {
        AccumulateSnoc(Filter(init, matches), t, inc, matches);
      } else {
        assert Filter(txns, matches) == Filter(init, matches);
        if Accumulate(init, inc, matches).Success? {
          var m := Accumulate(init, inc, matches).value;
          assert AddTxn(m, t, inc, matches) == Success(m);
        }
      }
    }
  }

  lemma {:induction false} BucketSplit(txns: seq<Transaction>, inc: Increment, matches: Transaction -> bool, d: Date)
    ensures IncomeIn(txns, inc, matches, d) + ExpenseIn(txns, inc, matches, d) == AmountIn(txns, inc, matches, d)
  {
    if txns != [] {
      BucketSplit(txns[..|txns| - 1], inc, matches, d);
    }
  }

  /** Sum of the bucket amounts over the bucket starts `ds`. */
  function SumOver(txns: seq<Transaction>, inc: Increment, matches: Transaction -> bool, ds: seq<Date>): real {
    if ds == [] then 0.0 else AmountIn(txns, inc, matches, ds[0]) + SumOver(txns, inc, matches, ds[1..])
  }

  lemma {:induction false} SumOverNone(inc: Increment, matches: Transaction -> bool, ds: seq<Date>)
    ensures SumOver([], inc, matches, ds) == 0.0
  {
    if ds != [] {
      SumOverNone(inc, matches, ds[1..]);
    }
  }

  lemma {:induction false} SumOverStep(txns: seq<Transaction>, t: Transaction, inc: Increment,
                                        matches: Transaction -> bool, ds: seq<Date>)
    requires Distinct(ds)
    ensures SumOver(txns + [t], inc, matches, ds) ==
              SumOver(txns, inc, matches, ds) + (if matches(t) && Key(inc, t) in ds then t.amount else 0.0)
  {
    if ds != [] {
      assert Distinct(ds[1..]);
      SumOverStep(txns, t, inc, matches, ds[1..]);
      assert (txns + [t])[..|txns|] == txns;
      assert Key(inc, t) in ds <==> Key(inc, t) == ds[0] || Key(inc, t) in ds[1..];
      if Key(inc, t) == ds[0] {
        assert ds[0] !in ds[1..];
      }
    }
  }

  /** Summed over distinct bucket starts that cover every matching transaction, the buckets hold the matching total. */
  lemma {:induction false} SumOverCover(txns: seq<Transaction>, inc: Increment, matches: Transaction -> bool, ds: seq<Date>)
    requires Distinct(ds)
    requires forall k :: 0 <= k < |txns| && matches(txns[k]) ==> Key(inc, txns[k]) in ds
    ensures SumOver(txns, inc, matches, ds) == MatchingTotal(txns, matches)
  {
    if txns == [] {
      SumOverNone(inc, matches, ds);
    } else {
      var init := txns[..|txns| - 1];
      var t := txns[|txns| - 1];
      assert txns == init + [t];
      forall k | 0 <= k < |init| && matches(init[k])
        ensures Key(inc, init[k]) in ds
      {
        assert init[k] == txns[k];
      }
      SumOverCover(init, inc, matches, ds);
      SumOverStep(init, t, inc, matches, ds);
    }
  }

  /** The chart entries `es` list the map `m`: each entry is `m`'s entry for its date, every key is listed, none twice. */
  predicate Lists(es: seq<ChartEntry>, m: map<Date, ChartEntry>) {
    (forall i :: 0 <= i < |es| ==> es[i].date in m && m[es[i].date] == es[i]) &&
    (forall d :: d in m ==> exists i :: 0 <= i < |es| && es[i].date == d) &&
    (forall i, j :: 0 <= i < j < |es| ==> es[i].date != es[j].date)
  }

  /** Strictly ascending dates. */
  predicate Ascending(es: seq<ChartEntry>) {
    forall i, j :: 0 <= i < j < |es| ==> Before(es[i].date, es[j].date)
  }

  function Dates(es: seq<ChartEntry>): (ds: seq<Date>)
    ensures |ds| == |es| && forall i :: 0 <= i < |es| ==> ds[i] == es[i].date
  {
    if es == [] then [] else [es[0].date] + Dates(es[1..])
  }

  /** Income plus expense over all entries. */
  function EntriesTotal(es: seq<ChartEntry>): real {
    if es == [] then 0.0 else es[0].income + es[0].expense + EntriesTotal(es[1..])
  }

  lemma {:induction false} EntriesSum(txns: seq<Transaction>, inc: Increment, matches: Transaction -> bool,
                                      es: seq<ChartEntry>)
    requires forall i :: 0 <= i < |es| ==>
      es[i] == ChartEntry(es[i].date, IncomeIn(txns, inc, matches, es[i].date), ExpenseIn(txns, inc, matches, es[i].date))
    ensures EntriesTotal(es) == SumOver(txns, inc, matches, Dates(es))
  {
    if es != [] {
      BucketSplit(txns, inc, matches, es[0].date);
      assert Dates(es)[1..] == Dates(es[1..]);
      EntriesSum(txns, inc, matches, es[1..]);
    }
  }

  /** Entries listing the accumulated map hold, in total, exactly the matching amounts. */
  lemma AggregateTotal(txns: seq<Transaction>, inc: Increment, matches: Transaction -> bool, es: seq<ChartEntry>)
    requires Accumulate(txns, inc, matches).Success?
    requires Lists(es, Accumulate(txns, inc, matches).value)
    ensures EntriesTotal(es) == MatchingTotal(txns, matches)
  {
    var m := Accumulate(txns, inc, matches).value;
    forall i | 0 <= i < |es|
      ensures es[i] == ChartEntry(es[i].date, IncomeIn(txns, inc, matches, es[i].date), ExpenseIn(txns, inc, matches, es[i].date))
    {
      AccumulateSums(txns, inc, matches, es[i].date);
    }
    EntriesSum(txns, inc, matches, es);
    var ds := Dates(es);
    forall k | 0 <= k < |txns| && matches(txns[k])
      ensures Key(inc, txns[k]) in ds
    {
      assert HasBucket(txns, inc, matches, Key(inc, txns[k]));
      AccumulateKeys(txns, inc, matches, Key(inc, txns[k]));
      var i :| 0 <= i < |es| && es[i].date == Key(inc, txns[k]);
      assert ds[i] == es[i].date;
    }
    SumOverCover(txns, inc, matches, ds);
  }

  /** The sort order: `a` is not after `b`. */
  function DateLe(a: ChartEntry, b: ChartEntry): bool {
    !Before(b.date, a.date)
  }

  lemma DateLePreorder()
    ensures TotalPreorder(DateLe)
  {
  }

  /**
   * The aggregation loop: the matching transactions are credited to the
   * entry of their bucket start, then the entries are listed and sorted by
   * date. It fails, as the source panics, when a transaction matches under
   * all time.
   */
  method Aggregate(txns: seq<Transaction>, inc: Increment, matches: Transaction -> bool)
    returns (r: Result<seq<ChartEntry>>)
    ensures r.Success? <==> Accumulate(txns, inc, matches).Success?
    ensures r.Failure? ==> Accumulate(txns, inc, matches) == Failure(r.message)
    ensures r.Success? ==> Lists(r.value, Accumulate(txns, inc, matches).value) && Ascending(r.value)
    ensures r.Success? ==> EntriesTotal(r.value) == MatchingTotal(txns, matches)
  {
    var entryMap: map<Date, ChartEntry> := map[];
    var i := 0;
    while i < |txns|
      invariant 0 <= i <= |txns|
      invariant Accumulate(txns[..i], inc, matches) == Success(entryMap)
      invariant forall d :: d in entryMap ==> entryMap[d].date == d
    {
      var t := txns[i];
      assert txns[..i + 1][..i] == txns[..i];
      var next := CreditTxn(entryMap, t, inc, matches);
      if next.Failure? {
        AccumulatePrefixFails(txns, i + 1, inc, matches);
        return Failure(next.message);
      }
      entryMap := next.value;
      i := i + 1;
    }
    assert txns[..i] == txns;
    var entries := ListEntries(entryMap);
    var sorted := SortBy(entries, DateLe);
    DateLePreorder();
    SortBySorted(entries, DateLe);
    SortedEntries(entryMap, entries, sorted);
    AggregateTotal(txns, inc, matches, sorted);
    r := Success(sorted);
  }

  /** The loop body: a matching transaction is credited to the entry of its bucket start, created on first use. */
  method CreditTxn(entryMap: map<Date, ChartEntry>, t: Transaction, inc: Increment, matches: Transaction -> bool)
    returns (r: Result<map<Date, ChartEntry>>)
    requires forall d :: d in entryMap ==> entryMap[d].date == d
    ensures r == AddTxn(entryMap, t, inc, matches)
    ensures r.Success? ==> forall d :: d in r.value ==> r.value[d].date == d
  {
    if !matches(t) {
      return Success(entryMap);
    }
    var date := AggLevelDate(t.date, inc);
    if date.Failure? {
      assert AddTxn(entryMap, t, inc, matches) == Failure(date.message);
      return Failure(date.message);
    }
    var entry := if date.value in entryMap then entryMap[date.value] else ChartEntry(date.value, 0.0, 0.0);
    ghost var credited := Credit(entry, t);
    assert AddTxn(entryMap, t, inc, matches) == Success(entryMap[date.value := credited]);
    if t.txnType == Income {
      entry := entry.(income := entry.income + t.amount);
    } else {
      entry := entry.(expense := entry.expense + t.amount);
    }
    assert entry == credited;
    r := Success(entryMap[date.value := entry]);
  }

  /** The entries of the map in some order, as ranging over a Go map yields them. */
  method ListEntries(entryMap: map<Date, ChartEntry>) returns (entries: seq<ChartEntry>)
    requires forall d :: d in entryMap ==> entryMap[d].date == d
    ensures Lists(entries, entryMap)
  {
    entries := [];
    var keys := entryMap.Keys;
    while keys != {}
      invariant keys <= entryMap.Keys && ListsExcept(entries, entryMap, keys)
      decreases |keys|
    {
      var d :| d in keys;
      ListsStep(entries, entryMap, keys, d);
      entries := entries + [entryMap[d]];
      keys := keys - {d};
    }
  }

  /** `es` lists the entries of `m` whose dates are not in `keys`. */
  predicate ListsExcept(es: seq<ChartEntry>, m: map<Date, ChartEntry>, keys: set<Date>) {
    (forall i :: 0 <= i < |es| ==> es[i].date in m && m[es[i].date] == es[i] && es[i].date !in keys) &&
    (forall d :: d in m && d !in keys ==> exists i :: 0 <= i < |es| && es[i].date == d) &&
    (forall i, j :: 0 <= i < j < |es| ==> es[i].date != es[j].date)
  }

  /** Listing the entry of one more key. */
  lemma ListsStep(es: seq<ChartEntry>, m: map<Date, ChartEntry>, keys: set<Date>, d: Date)
    requires forall k :: k in m ==> m[k].date == k
    requires keys <= m.Keys && d in keys && ListsExcept(es, m, keys)
    ensures ListsExcept(es + [m[d]], m, keys - {d})
  {
    var next := es + [m[d]];
    forall e | e in m && e !in keys - {d}
      ensures exists i :: 0 <= i < |next| && next[i].date == e
    {
      if e == d {
        assert next[|next| - 1].date == e;
      } else {
        var i :| 0 <= i < |es| && es[i].date == e;
        assert next[i] == es[i];
      }
    }
  }

  /** Sorting a listing by date keeps it a listing and makes its dates strictly ascending. */
  lemma SortedEntries(m: map<Date, ChartEntry>, entries: seq<ChartEntry>, sorted: seq<ChartEntry>)
    requires Lists(entries, m)
    requires multiset(sorted) == multiset(entries) && SortedBy(sorted, DateLe)
    ensures Lists(sorted, m) && Ascending(sorted)
  {
    assert Distinct(entries);
    DistinctPermutation(entries, sorted);
    forall i | 0 <= i < |sorted|
      ensures sorted[i].date in m && m[sorted[i].date] == sorted[i]
    {
      assert sorted[i] in multiset(entries);
    }
    forall d | d in m
      ensures exists i :: 0 <= i < |sorted| && sorted[i].date == d
    {
      var i :| 0 <= i < |entries| && entries[i].date == d;
      assert entries[i] in multiset(sorted);
      var j :| 0 <= j < |sorted| && sorted[j] == entries[i];
    }
    forall i, j | 0 <= i < j < |sorted|
      ensures Before(sorted[i].date, sorted[j].date)
    {
      assert sorted[i] != sorted[j];
      if sorted[i].date == sorted[j].date {
        assert false;
      }
      DayNumberInjective(sorted[i].date, sorted[j].date);
    }
  }

  lemma {:induction false} AccumulatePrefixFails(txns: seq<Transaction>, n: nat, inc: Increment,
                                                 matches: Transaction -> bool)
    requires n <= |txns| && Accumulate(txns[..n], inc, matches).Failure?
    ensures Accumulate(txns, inc, matches) == Accumulate(txns[..n], inc, matches)
  {
    if n < |txns| {
      var init := txns[..|txns| - 1];
      assert init[..n] == txns[..n];
      AccumulatePrefixFails(init, n, inc, matches);
    } else {
      assert txns[..n] == txns;
    }
  }

  /** The account chart's filter as written: the name "Total" selects every transaction. */
  function AccountMatchAsWritten(name: string): Transaction -> bool {
    (t: Transaction) => name == "Total" || t.account == name
  }

  /** The account chart's filter: the total row's name selects every transaction, any other name its account. */
  function AccountMatch(name: string): Transaction -> bool {
    (t: Transaction) => name == AccountTable.AccountNameTotal || t.account == name
  }

  /** The category chart's filter: the category's own transactions. */
  function CategoryMatch(name: string): Transaction -> bool {
    (t: Transaction) => t.category == name
  }

  /**
   * The account filter as written selects everything for the name "Total";
   * the corrected one does so for the total row's name instead. The
   * category filter selects the category's own transactions.
   */
  lemma AccountMatchOf(name: string, t: Transaction)
    ensures AccountMatchAsWritten(name)(t) <==> name == "Total" || t.account == name
    ensures AccountMatch(name)(t) <==> name == AccountTable.AccountNameTotal || t.account == name
    ensures CategoryMatch(name)(t) <==> t.category == name
  {
  }

  /**
   * As written, selecting the total row charts only transactions whose
   * account is literally named "Total Accounts": with none, the chart is empty.
   */
  lemma TotalRowChartsNothing(txns: seq<Transaction>, inc: Increment)
    requires forall k :: 0 <= k < |txns| ==> txns[k].account != AccountTable.AccountNameTotal
    ensures Accumulate(txns, inc, AccountMatchAsWritten(AccountTable.AccountNameTotal)) == Success(map[])
    ensures MatchingTotal(txns, AccountMatchAsWritten(AccountTable.AccountNameTotal)) == 0.0
  {
    var f := AccountMatchAsWritten(AccountTable.AccountNameTotal);
    assert AccountTable.AccountNameTotal != "Total";
    NoneMatch(txns, inc, f);
  }

  lemma {:induction false} NoneMatch(txns: seq<Transaction>, inc: Increment, matches: Transaction -> bool)
    requires forall k :: 0 <= k < |txns| ==> !matches(txns[k])
    ensures Accumulate(txns, inc, matches) == Success(map[])
    ensures MatchingTotal(txns, matches) == 0.0
  {
    if txns != [] {
      NoneMatch(txns[..|txns| - 1], inc, matches);
    }
  }

  /** Corrected: selecting the total row charts every transaction. */
  lemma TotalRowChartsAll(txns: seq<Transaction>, inc: Increment)
    ensures forall t :: AccountMatch(AccountTable.AccountNameTotal)(t)
    ensures Filter(txns, AccountMatch(AccountTable.AccountNameTotal)) == txns
  {
    AllMatch(txns, AccountMatch(AccountTable.AccountNameTotal));
  }

  lemma {:induction false} AllMatch(txns: seq<Transaction>, matches: Transaction -> bool)
    requires forall t :: matches(t)
    ensures Filter(txns, matches) == txns
  {
    if txns != [] {
      AllMatch(txns[..|txns| - 1], matches);
    }
  }

  /** aggregateByAccount as written: the time series of one account, or of every account for the name "Total". */
  method AggregateByAccountAsWritten(txns: seq<Transaction>, inc: Increment, name: string) returns (r: Result<seq<ChartEntry>>)
    ensures r.Success? <==> Accumulate(txns, inc, AccountMatchAsWritten(name)).Success?
    ensures r.Success? ==> Lists(r.value, Accumulate(txns, inc, AccountMatchAsWritten(name)).value) && Ascending(r.value)
    ensures r.Success? ==> EntriesTotal(r.value) == MatchingTotal(txns, AccountMatchAsWritten(name))
  {
    r := Aggregate(txns, inc, AccountMatchAsWritten(name));
  }

  /** Corrected: the time series of one account, or of every account for the total row. */
  method AggregateByAccount(txns: seq<Transaction>, inc: Increment, name: string) returns (r: Result<seq<ChartEntry>>)
    ensures r.Success? <==> Accumulate(txns, inc, AccountMatch(name)).Success?
    ensures r.Success? ==> Lists(r.value, Accumulate(txns, inc, AccountMatch(name)).value) && Ascending(r.value)
    ensures r.Success? ==> EntriesTotal(r.value) == MatchingTotal(txns, AccountMatch(name))
  {
    r := Aggregate(txns, inc, AccountMatch(name));
  }

  /** The time series of one category. */
  method AggregateByCategory(txns: seq<Transaction>, inc: Increment, name: string) returns (r: Result<seq<ChartEntry>>)
    ensures r.Success? <==> Accumulate(txns, inc, CategoryMatch(name)).Success?
    ensures r.Success? ==> Lists(r.value, Accumulate(txns, inc, CategoryMatch(name)).value) && Ascending(r.value)
    ensures r.Success? ==> EntriesTotal(r.value) == MatchingTotal(txns, CategoryMatch(name))
  {
    r := Aggregate(txns, inc, CategoryMatch(name));
  }
}
