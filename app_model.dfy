/**
 * The application model's data flow: the date-sorted transaction list, the
 * window of it the date picker selects (found by binary search), the
 * free-text search over that window, and the picker's limits.
 */
module AppModel {
  import opened Civil
  import opened Text
  import opened Transactions
  import opened Query
  import opened Increments
  import opened DatePicker

  /** Ascending by date, as the data sources deliver transactions. */
  predicate SortedByDate(txns: seq<Transaction>) {
    forall i, j :: 0 <= i < j < |txns| ==> !Before(txns[j].date, txns[i].date)
  }

  /** `start <= date < end`. */
  predicate InRange(t: Transaction, start: Date, end: Date) {
    !Before(t.date, start) && Before(t.date, end)
  }

  /** The elements of `s` that satisfy `p`, in their order. */
  function Keep<T>(s: seq<T>, p: T -> bool): seq<T> {
    if s == [] then []
    else (if p(s[0]) then [s[0]] else []) + Keep(s[1..], p)
  }

  /** Filtering keeps exactly the elements that satisfy `p`. */
  lemma {:induction false} KeepMembers<T>(s: seq<T>, p: T -> bool, x: T)
    ensures x in Keep(s, p) <==> x in s && p(x)
  {
    if s != [] {
      KeepMembers(s[1..], p, x);
      assert x in s <==> x == s[0] || x in s[1..];
    }
  }

  /** Filtering `s[i..]` decides `s[i]` and goes on with `s[i + 1..]`. */
  lemma KeepFrom<T>(s: seq<T>, p: T -> bool, i: nat)
    requires i < |s|
    ensures Keep(s[i..], p) == (if p(s[i]) then [s[i]] else []) + Keep(s[i + 1..], p)
  {
    assert s[i..][1..] == s[i + 1..];
  }

  /**
   * When the elements satisfying `p` are exactly those of one block
   * `s[lo..hi]`, filtering gives that block.
   */
  lemma {:induction false} KeepBlock<T>(s: seq<T>, p: T -> bool, lo: nat, hi: nat)
    requires lo <= hi <= |s|
    requires forall k :: 0 <= k < |s| ==> (p(s[k]) <==> lo <= k < hi)
    ensures s[lo..hi] == Keep(s, p)
  {
    if s != [] {
      var rest := s[1..];
      assert forall k :: 0 <= k < |rest| ==> rest[k] == s[k + 1];
      if lo > 0 {
        KeepBlock(rest, p, lo - 1, hi - 1);
        assert s[lo..hi] == rest[lo - 1..hi - 1];
      } else if hi > 0 {
        KeepBlock(rest, p, 0, hi - 1);
        assert s[0..hi] == [s[0]] + rest[0..hi - 1];
      } else {
        KeepBlock(rest, p, 0, 0);
      }
    }
  }

  /** The transactions dated within [start, end), in their order. */
  function Window(txns: seq<Transaction>, start: Date, end: Date): seq<Transaction> {
    Keep(txns, Within(start, end))
  }

  function Within(start: Date, end: Date): Transaction -> bool {
    t => InRange(t, start, end)
  }

  /** A window keeps exactly the transactions within the range. */
  lemma WindowMembers(txns: seq<Transaction>, start: Date, end: Date, t: Transaction)
    ensures t in Window(txns, start, end) <==> t in txns && InRange(t, start, end)
  {
    KeepMembers(txns, Within(start, end), t);
  }

  /**
   * On a sorted list, the transactions from the first one dated at or after
   * `start` up to (not including) the first one dated at or after `end` are
   * the window [start, end).
   */
  lemma SliceIsWindow(txns: seq<Transaction>, lo: nat, hi: nat, start: Date, end: Date)
    requires lo <= hi <= |txns|
    requires forall k :: 0 <= k < lo ==> Before(txns[k].date, start)
    requires forall k :: lo <= k < hi ==> InRange(txns[k], start, end)
    requires forall k :: hi <= k < |txns| ==> !Before(txns[k].date, end)
    ensures txns[lo..hi] == Window(txns, start, end)
  {
    KeepBlock(txns, Within(start, end), lo, hi);
  }

  /**
   * sort.Search over the dates: the first index whose date is at or after
   * `d`, found by halving the interval that must hold it.
   */
  method SearchDate(txns: seq<Transaction>, d: Date) returns (i: nat)
    requires SortedByDate(txns)
    ensures i <= |txns|
    ensures forall k :: 0 <= k < i ==> Before(txns[k].date, d)
    ensures forall k :: i <= k < |txns| ==> !Before(txns[k].date, d)
  {
    var lo, hi := 0, |txns|;
    while lo < hi
      invariant 0 <= lo <= hi <= |txns|
      invariant forall k :: 0 <= k < lo ==> Before(txns[k].date, d)
      invariant forall k :: hi <= k < |txns| ==> !Before(txns[k].date, d)
      decreases hi - lo
    {
      var h := (lo + hi) / 2;
      if Before(txns[h].date, d) {
        lo := h + 1;
      } else {
        hi := h;
      }
    }
    i := lo;
  }

  /** Some transaction is dated within [end, start): the window's two ends cross. */
  predicate Crossed(txns: seq<Transaction>, start: Date, end: Date) {
    exists k :: 0 <= k < |txns| && !Before(txns[k].date, end) && Before(txns[k].date, start)
  }

  /** A search query is either blank, or a list of sub-queries separated by " OR ". */
  function SubQueries(query: string): seq<string> {
    Split(TrimSpace(query), " OR ")
  }

  /** A sub-query selects a transaction when it has at least one keyword and they all match. */
  predicate SubQueryMatches(t: Transaction, q: string) {
    |Keywords(q)| > 0 && Matches(t, Keywords(q))
  }

  /** The keywords of a sub-query: its lower-cased whitespace-separated words. */
  function Keywords(q: string): seq<string> {
    Fields(ToLower(q))
  }

  /** Some sub-query selects the transaction. */
  predicate AnySubQuery(t: Transaction, subQueries: seq<string>) {
    SomeHolds(subQueries, SelectsTxn(t))
  }

  /** The sub-queries that select `t`. */
  function SelectsTxn(t: Transaction): string -> bool {
    q => SubQueryMatches(t, q)
  }

  /** Some element satisfies `p`. */
  predicate SomeHolds<T>(s: seq<T>, p: T -> bool) {
    exists i :: 0 <= i < |s| && p(s[i])
  }

  /** One more element: the first i + 1 have a witness iff the first i do or the next one is one. */
  lemma SomeHoldsStep<T>(s: seq<T>, p: T -> bool, i: nat)
    requires i < |s|
    ensures SomeHolds(s[..i + 1], p) <==> SomeHolds(s[..i], p) || p(s[i])
    ensures SomeHolds(s[..i + 1], p) ==> SomeHolds(s, p)
  {
    var q := s[..i + 1];
    assert q[i] == s[i];
    if SomeHolds(q, p) {
      var j :| 0 <= j < |q| && p(q[j]);
      assert q[j] == s[j];
      if j < i {
        assert s[..i][j] == s[j];
      }
    }
    if SomeHolds(s[..i], p) {
      var j :| 0 <= j < i && p(s[..i][j]);
      assert q[j] == s[..i][j];
    }
  }

  /** The transactions some sub-query selects, in their order. */
  function Selected(txns: seq<Transaction>, subQueries: seq<string>): seq<Transaction> {
    Keep(txns, SelectedBy(subQueries))
  }

  function SelectedBy(subQueries: seq<string>): Transaction -> bool {
    t => AnySubQuery(t, subQueries)
  }

  /** The search result: everything for a blank query, else what some sub-query selects. */
  function Search(txns: seq<Transaction>, query: string): seq<Transaction> {
    if TrimSpace(query) == "" then txns else Selected(txns, SubQueries(query))
  }

  /** `r` is `s` with some elements left out: each kept element appears once and in order. */
  predicate Subsequence<T(==)>(r: seq<T>, s: seq<T>)
    decreases |s|
  {
    if r == [] then true
    else if s == [] then false
    else if r[0] == s[0] && Subsequence(r[1..], s[1..]) then true
    else Subsequence(r, s[1..])
  }

  /** Filtering leaves out elements and keeps the order of the rest. */
  lemma {:induction false} KeepSubsequence<T>(s: seq<T>, p: T -> bool)
    ensures Subsequence(Keep(s, p), s)
  {
    if s != [] {
      KeepSubsequence(s[1..], p);
      var rest := Keep(s[1..], p);
      if p(s[0]) {
        assert Keep(s, p)[1..] == rest;
      } else {
        assert Keep(s, p) == rest;
        SubsequenceSkip(rest, s);
      }
    }
  }

  lemma SubsequenceSkip<T>(r: seq<T>, s: seq<T>)
    requires s != [] && Subsequence(r, s[1..])
    ensures Subsequence(r, s)
  {
  }

  /** Filtering with a predicate no element satisfies keeps nothing. */
  lemma {:induction false} KeepNone<T>(s: seq<T>, p: T -> bool)
    requires forall k :: 0 <= k < |s| ==> !p(s[k])
    ensures Keep(s, p) == []
  {
    if s != [] {
      KeepNone(s[1..], p);
    }
  }

  /** The search keeps exactly the transactions some sub-query selects, as an order-preserving subsequence. */
  lemma SelectedMembers(txns: seq<Transaction>, subQueries: seq<string>, t: Transaction)
    ensures t in Selected(txns, subQueries) <==> t in txns && AnySubQuery(t, subQueries)
    ensures Subsequence(Selected(txns, subQueries), txns)
  {
    KeepMembers(txns, SelectedBy(subQueries), t);
    KeepSubsequence(txns, SelectedBy(subQueries));
  }

  /** A blank query keeps everything; a query with only empty sub-queries keeps nothing. */
  lemma BlankQuery(txns: seq<Transaction>, query: string)
    ensures TrimSpace(query) == "" ==> Search(txns, query) == txns
    ensures TrimSpace(query) != "" && (forall i :: 0 <= i < |SubQueries(query)| ==> Keywords(SubQueries(query)[i]) == [])
      ==> Search(txns, query) == []
  {
    if TrimSpace(query) != "" && (forall i :: 0 <= i < |SubQueries(query)| ==> Keywords(SubQueries(query)[i]) == []) {
      NothingSelected(txns, SubQueries(query));
    }
  }

  lemma NothingSelected(txns: seq<Transaction>, subQueries: seq<string>)
    requires forall i :: 0 <= i < |subQueries| ==> Keywords(subQueries[i]) == []
    ensures Selected(txns, subQueries) == []
  {
    forall k | 0 <= k < |txns|
      ensures !SelectedBy(subQueries)(txns[k])
    {
      NoSubQuerySelects(txns[k], subQueries);
    }
    KeepNone(txns, SelectedBy(subQueries));
  }

  lemma NoSubQuerySelects(t: Transaction, subQueries: seq<string>)
    requires forall i :: 0 <= i < |subQueries| ==> Keywords(subQueries[i]) == []
    ensures !AnySubQuery(t, subQueries)
  {
  }

  /** The inner loop: the sub-queries are tried in order until one selects the transaction. */
  method MatchesAnySubQuery(t: Transaction, subQueries: seq<string>) returns (found: bool)
    ensures found <==> AnySubQuery(t, subQueries)
  {
    found := false;
    var i := 0;
    while i < |subQueries|
      invariant 0 <= i <= |subQueries|
      invariant !AnySubQuery(t, subQueries[..i])
    {
      SomeHoldsStep(subQueries, SelectsTxn(t), i);
      var keywords := Keywords(subQueries[i]);
      if |keywords| > 0 && Matches(t, keywords) {
        found := true;
        break;
      }
      i := i + 1;
    }
    assert found || subQueries[..i] == subQueries;
  }

  /** The outer loop: each transaction is kept when some sub-query selects it. */
  method SelectMatching(view: seq<Transaction>, subQueries: seq<string>) returns (matching: seq<Transaction>)
    ensures matching == Selected(view, subQueries)
  {
    matching := [];
    var i := 0;
    while i < |view|
      invariant 0 <= i <= |view|
      invariant matching + Selected(view[i..], subQueries) == Selected(view, subQueries)
    {
      var t := view[i];
      var found := MatchesAnySubQuery(t, subQueries);
      KeepFrom(view, SelectedBy(subQueries), i);
      ghost var tail := Selected(view[i + 1..], subQueries);
      if found {
        AppendAssoc(matching, [t], tail);
        matching := matching + [t];
      } else {
        assert [] + tail == tail;
      }
      i := i + 1;
    }
    assert view[i..] == [];
  }

  lemma AppendAssoc<T>(a: seq<T>, b: seq<T>, c: seq<T>)
    ensures a + (b + c) == (a + b) + c
  {
  }


  /** The chart title: the increment's name (all time is charted yearly) and the selected row. */
  function ChartName(inc: Increment, name: string): string {
    (if inc == AllTime then Name(Annually) else Name(inc)) + " time series: " + name
  }

  /** The increment a chart is titled by: all time is charted yearly. */
  function TitleIncrement(inc: Increment): Increment {
    if inc == AllTime then Annually else inc
  }

  /** All time is titled "Yearly". */
  lemma ChartNameAllTime(name: string)
    ensures ChartName(AllTime, name) == "Yearly time series: " + name
  {
  }

  /** Two increments give the same title exactly when they are titled by the same increment. */
  lemma ChartNameInjective(a: Increment, b: Increment, name: string)
    ensures ChartName(a, name) == ChartName(b, name) <==> TitleIncrement(a) == TitleIncrement(b)
  {
    var la, lb := TitleIncrement(a), TitleIncrement(b);
    NameInjective(la, lb);
    assert ChartName(a, name) == Name(la) + (" time series: " + name);
    assert ChartName(b, name) == Name(lb) + (" time series: " + name);
    if ChartName(a, name) == ChartName(b, name) {
      SameSuffix(Name(la), Name(lb), " time series: " + name);
    }
  }

  lemma SameSuffix(a: string, b: string, c: string)
    requires a + c == b + c
    ensures a == b
  {
    assert |a| == |b|;
    assert a == (a + c)[..|a|];
  }

  /** The model's state: every transaction, the dated window of it, and the search result over the window. */
  class Model {
    var allTransactions: seq<Transaction>
    var viewTransactions: seq<Transaction>
    var matchingTransactions: seq<Transaction>
    const datePicker: Picker

    constructor (txns: seq<Transaction>, picker: Picker)
      ensures allTransactions == txns && viewTransactions == [] && matchingTransactions == []
      ensures datePicker == picker
    {
      allTransactions := txns;
      viewTransactions := [];
      matchingTransactions := [];
      datePicker := picker;
    }

    /**
     * Sets the picker's limits to the first and last transaction dates; an
     * empty list changes nothing. False when the picker shows all time,
     * where the source panics.
     */
    method UpdateDatePickerLimits() returns (ok: bool)
      modifies datePicker
      ensures allTransactions == [] ==> (ok && datePicker.Range() == old(datePicker.Range()) &&
        datePicker.minDate == old(datePicker.minDate) && datePicker.maxDate == old(datePicker.maxDate))
      ensures allTransactions != [] ==>
        datePicker.minDate == allTransactions[0].date &&
        datePicker.maxDate == allTransactions[|allTransactions| - 1].date
      ensures allTransactions != [] ==> (ok <==> datePicker.inc != AllTime)
      ensures allTransactions != [] && ok ==>
        datePicker.Range() == Clamp(old(datePicker.Range()), datePicker.inc, datePicker.minDate, datePicker.maxDate).value
      ensures datePicker.inc == old(datePicker.inc)
      ensures old(datePicker.Valid()) ==> datePicker.Valid()
    {
      if |allTransactions| == 0 {
        return true;
      }
      ok := datePicker.SetLimits(allTransactions[0].date, allTransactions[|allTransactions| - 1].date);
    }

    /**
     * Selects the transactions dated within the picker's range, locating
     * its two ends by binary search. False, with nothing changed, when the
     * ends cross (the source panics).
     */
    method FilterTransactions() returns (ok: bool)
      requires SortedByDate(allTransactions)
      modifies this
      ensures allTransactions == old(allTransactions) && matchingTransactions == old(matchingTransactions)
      ensures ok <==> !Crossed(allTransactions, datePicker.startDate, datePicker.endDate)
      ensures ok ==> viewTransactions == Window(allTransactions, datePicker.startDate, datePicker.endDate)
      ensures !ok ==> viewTransactions == old(viewTransactions)
    {
      var startDate, endDate := datePicker.startDate, datePicker.endDate;
      var startIndex := SearchDate(allTransactions, startDate);
      var endIndex := SearchDate(allTransactions, endDate);
      if startIndex > endIndex {
        assert !Before(allTransactions[endIndex].date, endDate) && Before(allTransactions[endIndex].date, startDate);
        return false;
      }
      assert !Crossed(allTransactions, startDate, endDate);
      var view: seq<Transaction> := [];
      var i := startIndex;
      while i < endIndex
        invariant startIndex <= i <= endIndex
        invariant view == allTransactions[startIndex..i]
      {
        view := view + [allTransactions[i]];
        i := i + 1;
      }
      SliceIsWindow(allTransactions, startIndex, endIndex, startDate, endDate);
      viewTransactions := view;
      ok := true;
    }

    /** Runs the search query over the window; the result is what the transaction table and summary show. */
    method SearchTransactions(query: string)
      modifies this
      ensures allTransactions == old(allTransactions) && viewTransactions == old(viewTransactions)
      ensures matchingTransactions == Search(viewTransactions, query)
    {
      var searchQuery := TrimSpace(query);
      if searchQuery == "" {
        matchingTransactions := viewTransactions;
        return;
      }
      var subQueries := Split(searchQuery, " OR ");
      var matching := SelectMatching(viewTransactions, subQueries);
      matchingTransactions := matching;
    }
  }

  /**
   * As written, the all-time range ends at the last transaction's date,
   * which the window excludes: that transaction is not shown.
   */
  lemma AllTimeDropsLastDay(txns: seq<Transaction>)
    requires txns != [] && SortedByDate(txns)
    ensures var s := AllTimeSpanAsWritten(txns[0].date, txns[|txns| - 1].date);
      txns[|txns| - 1] !in Window(txns, s.start, s.end)
  {
    var s := AllTimeSpanAsWritten(txns[0].date, txns[|txns| - 1].date);
    WindowMembers(txns, s.start, s.end, txns[|txns| - 1]);
  }

  /** Corrected: on a sorted list the all-time range from the first to the last date shows every transaction. */
  lemma AllTimeShowsAll(txns: seq<Transaction>)
    requires txns != [] && SortedByDate(txns)
    ensures var s := AllTimeSpan(txns[0].date, txns[|txns| - 1].date);
      Window(txns, s.start, s.end) == txns
  {
    var s := AllTimeSpan(txns[0].date, txns[|txns| - 1].date);
    forall k | 0 <= k < |txns|
      ensures InRange(txns[k], s.start, s.end)
    {
      if k > 0 {
        assert !Before(txns[k].date, txns[0].date);
      }
      if k < |txns| - 1 {
        assert !Before(txns[|txns| - 1].date, txns[k].date);
      }
    }
    SliceIsWindow(txns, 0, |txns|, s.start, s.end);
    assert txns[0..|txns|] == txns;
  }
}
