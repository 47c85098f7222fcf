/**
 * Reading CSV files: the header row locates the column of each field, each
 * data record becomes one transaction, and the transactions of all files
 * are put in date order.
 */
module CsvLoader {
  import opened Wrappers
  import opened Civil
  import opened Transactions
  import opened Sorting
  import opened CsvConfig
  import opened CsvRecord

  /** A CSV file: its header row and its data records, each a list of cells. */
  datatype CsvFile = CsvFile(header: seq<string>, records: seq<seq<string>>)

  /** Header cell `i` names field `f`. */
  predicate Names(header: seq<string>, columns: map<string, Field>, i: int, f: Field) {
    0 <= i < |header| && header[i] in columns && columns[header[i]] == f
  }

  /** Some header cell names field `f`. */
  predicate Named(header: seq<string>, columns: map<string, Field>, f: Field) {
    exists i :: 0 <= i < |header| && Names(header, columns, i, f)
  }

  /** Cell `i` is the last header cell naming field `f`. */
  predicate LastNamed(header: seq<string>, columns: map<string, Field>, i: int, f: Field) {
    Names(header, columns, i, f) && forall j :: i < j < |header| ==> !Names(header, columns, j, f)
  }

  /** The header loop over `header`, adding to `indexes` the position of each cell that names a field. */
  function ResolveColumns(header: seq<string>, columns: map<string, Field>, indexes: map<Field, nat>): map<Field, nat>
    decreases |header|
  {
    if header == [] then indexes
    else
      var r := ResolveColumns(header[..|header| - 1], columns, indexes);
      var col := header[|header| - 1];
      if col in columns then r[columns[col] := |header| - 1] else r
  }

  /**
   * A field gets a column exactly when some header cell names it, and then
   * its index is the last such cell; fields no cell names keep what they had.
   */
  lemma {:induction false} ResolvedColumn(header: seq<string>, columns: map<string, Field>, indexes: map<Field, nat>, f: Field)
    ensures var r := ResolveColumns(header, columns, indexes);
            (f in r <==> f in indexes || Named(header, columns, f)) &&
            (Named(header, columns, f) ==> LastNamed(header, columns, r[f], f)) &&
            (!Named(header, columns, f) && f in indexes ==> r[f] == indexes[f])
    decreases |header|
  {
    if header != [] {
      var init := header[..|header| - 1];
      ResolvedColumn(init, columns, indexes, f);
      assert forall i :: 0 <= i < |init| ==> (Names(init, columns, i, f) <==> Names(header, columns, i, f));
      if !Names(header, columns, |header| - 1, f) {
        assert Named(header, columns, f) ==> Named(init, columns, f);
      }
    }
  }

  /** The first field other than the account type that has no column. */
  function FirstMissing(indexes: map<Field, nat>, i: nat): (r: Option<Field>)
    requires i <= |AllFields|
    ensures r.Some? ==> r.value != AccountTypeField && r.value !in indexes
    ensures r.None? ==> forall j :: i <= j < |AllFields| && AllFields[j] != AccountTypeField ==> AllFields[j] in indexes
    decreases |AllFields| - i
  {
    if i == |AllFields| then None
    else if AllFields[i] != AccountTypeField && AllFields[i] !in indexes then Some(AllFields[i])
    else FirstMissing(indexes, i + 1)
  }

  /**
   * The column indexes a file is read with: preset ones as they are;
   * otherwise those the header gives, and an error if a field other than
   * the account type is left without a column.
   */
  function ColumnIndexes(header: seq<string>, columns: map<string, Field>, preset: map<Field, nat>): Result<map<Field, nat>> {
    if |preset| != 0 then Success(preset)
    else
      var r := ResolveColumns(header, columns, preset);
      match FirstMissing(r, 0)
      case Some(f) => Failure("failed to parse CSV: unable to locate column for transaction field " + FieldName(f))
      case None => Success(r)
  }

  /** The conversion of one record with the given column indexes and tables. */
  function RecordWith(indexes: map<Field, nat>, m: Mappings): seq<string> -> Result<Transaction> {
    rec => Record(rec, indexes, m)
  }

  /** The records converted in order; the first record that fails is the error. */
  function Records(records: seq<seq<string>>, indexes: map<Field, nat>, m: Mappings): Result<seq<Transaction>> {
    MapAll(records, RecordWith(indexes, m))
  }

  /** Every record has as many cells as the header, as the CSV reader demands of each record after the first. */
  predicate SameWidth(file: CsvFile) {
    forall k :: 0 <= k < |file.records| ==> |file.records[k]| == |file.header|
  }

  /**
   * readCsv on a file read with the given configuration: the column
   * indexes, then the reader's field-count check on the records, then the
   * records converted.
   */
  function ReadFile(file: CsvFile, columns: map<string, Field>, preset: map<Field, nat>, m: Mappings): Result<seq<Transaction>> {
    var indexes :- ColumnIndexes(file.header, columns, preset);
    if !SameWidth(file) then Failure("failed to read all records: wrong number of fields")
    else Records(file.records, indexes, m)
  }

  /**
   * A record whose cell count differs from the header's fails the file
   * once its columns are found, whatever the record holds; a file of
   * records as wide as the header is read record by record.
   */
  lemma WidthChecked(file: CsvFile, columns: map<string, Field>, preset: map<Field, nat>, m: Mappings, k: nat)
    requires ColumnIndexes(file.header, columns, preset).Success?
    ensures k < |file.records| && |file.records[k]| != |file.header| ==> ReadFile(file, columns, preset, m).Failure?
    ensures SameWidth(file) ==>
            ReadFile(file, columns, preset, m) == Records(file.records, ColumnIndexes(file.header, columns, preset).value, m)
  {
  }

  /** readCsv with the default configuration. */
  function ReadDefault(file: CsvFile): Result<seq<Transaction>> {
    ReadFile(file, FieldsByName, map[], DefaultMappings)
  }

  /** The transactions of all files, in file order; the first file that fails is the error. */
  function Concat(files: seq<CsvFile>): Result<seq<Transaction>>
    decreases |files|
  {
    if files == [] then Success([])
    else
      var init :- Concat(files[..|files| - 1]);
      var txns :- ReadDefault(files[|files| - 1]);
      Success(init + txns)
  }

  /** Earlier-or-same date: the order the loaded transactions end in. */
  predicate DateLe(a: Transaction, b: Transaction) {
    !Before(b.date, a.date)
  }

  /** LoadTransactions: no file gives an empty list, otherwise all transactions sorted by date. */
  function Load(files: seq<CsvFile>): Result<seq<Transaction>> {
    if files == [] then Success([])
    else
      var all :- Concat(files);
      Success(SortBy(all, DateLe))
  }

  // Properties of reading

  /** A preset set of column indexes is used as it is: the header is neither read nor checked. */
  lemma PresetIndexes(header: seq<string>, columns: map<string, Field>, preset: map<Field, nat>)
    requires preset != map[]
    ensures ColumnIndexes(header, columns, preset) == Success(preset)
  {
    assert |preset| != 0 by {
      var f :| f in preset;
      assert f in preset.Keys;
    }
  }

  /**
   * Without preset indexes, reading succeeds exactly when every field
   * other than the account type is named by some header cell, and each
   * named field gets its last cell.
   */
  lemma ResolvedIndexes(header: seq<string>, columns: map<string, Field>)
    ensures var r := ColumnIndexes(header, columns, map[]);
            (r.Success? <==> forall f :: f != AccountTypeField ==> Named(header, columns, f)) &&
            (r.Success? ==> forall f :: (f in r.value <==> Named(header, columns, f)) &&
                                        (f in r.value ==> LastNamed(header, columns, r.value[f], f)))
  {
    var r := ResolveColumns(header, columns, map[]);
    forall f ensures (f in r <==> Named(header, columns, f)) && (f in r ==> LastNamed(header, columns, r[f], f)) {
      ResolvedColumn(header, columns, map[], f);
    }
    if FirstMissing(r, 0).None? {
      forall f | f != AccountTypeField ensures f in r {
        var j := FieldIndex(f);
        assert AllFields[j] in r;
      }
    }
  }

  /** One transaction per record, in record order, each the conversion of its record. */
  lemma RecordsInOrder(records: seq<seq<string>>, indexes: map<Field, nat>, m: Mappings)
    ensures Records(records, indexes, m).Success? <==> forall k :: 0 <= k < |records| ==> Record(records[k], indexes, m).Success?
    ensures Records(records, indexes, m).Success? ==>
            |Records(records, indexes, m).value| == |records| &&
            forall k :: 0 <= k < |records| ==> Records(records, indexes, m).value[k] == Record(records[k], indexes, m).value
  {
    MapAllInOrder(records, RecordWith(indexes, m));
  }

  /** The loaded list is in date order and holds the transactions of all files, each as often. */
  lemma LoadSorted(files: seq<CsvFile>)
    requires Load(files).Success?
    ensures Concat(files).Success?
    ensures SortedBy(Load(files).value, DateLe)
    ensures multiset(Load(files).value) == multiset(Concat(files).value)
  {
    assert TotalPreorder(DateLe);
    if files != [] {
      SortBySorted(Concat(files).value, DateLe);
    }
  }

  /** A file that fails makes loading fail. */
  lemma {:induction false} FileFailureFails(files: seq<CsvFile>, k: nat)
    requires k < |files| && ReadDefault(files[k]).Failure?
    ensures Concat(files).Failure? && Load(files).Failure?
    decreases |files|
  {
    if k < |files| - 1 {
      FileFailureFails(files[..|files| - 1], k);
    }
  }

  // The reading loops

  /** The header loop: each cell naming a field sets that field's index to the cell's position. */
  method ResolveHeader(config: Config, header: seq<string>)
    modifies config
    ensures config.columnIndexes == ResolveColumns(header, old(config.columns), old(config.columnIndexes))
    ensures config.columns == old(config.columns) && config.Tables() == old(config.Tables())
  {
    ghost var preset := config.columnIndexes;
    for index := 0 to |header|
      invariant config.columns == old(config.columns) && config.Tables() == old(config.Tables())
      invariant config.columnIndexes == ResolveColumns(header[..index], config.columns, preset)
    {
      assert header[..index + 1][..index] == header[..index];
      var col := header[index];
      if col in config.columns {
        config.columnIndexes := config.columnIndexes[config.columns[col] := index];
      }
    }
    assert header[..|header|] == header;
  }

  /** The completeness check: the first field other than the account type without a column. */
  method MissingColumn(indexes: map<Field, nat>) returns (r: Option<Field>)
    ensures r == FirstMissing(indexes, 0)
  {
    for i := 0 to |AllFields|
      invariant FirstMissing(indexes, 0) == FirstMissing(indexes, i)
    {
      var field := AllFields[i];
      if field != AccountTypeField && field !in indexes {
        return Some(field);
      }
    }
    return None;
  }

  /** The record loop, storing one transaction per record in an array. */
  method ParseRecords(records: seq<seq<string>>, config: Config) returns (r: Result<seq<Transaction>>)
    ensures r == Records(records, config.columnIndexes, config.Tables())
  {
    var f := RecordWith(config.columnIndexes, config.Tables());
    assert Records(records, config.columnIndexes, config.Tables()) == MapAll(records, f);
    var txns := new Transaction[|records|](_ => EmptyTransaction);
    for i := 0 to |records|
      invariant MapAll(records[..i], f) == Success(txns[..i])
      invariant f == RecordWith(config.columnIndexes, config.Tables())
    {
      var t := ParseCsvRecord(records[i], config);
      assert t == f(records[i]);
      MapAllStep(records, f, i);
      if t.Failure? {
        MapAllPrefixFails(records, f, i + 1);
        assert MapAll(records, f) == Failure(t.message);
        return Failure(t.message);
      }
      txns[i] := t.value;
      assert txns[..i + 1] == txns[..i] + [t.value];
    }
    assert records[..|records|] == records;
    assert txns[..|records|] == txns[..];
    assert MapAll(records, f) == Success(txns[..]);
    return Success(txns[..]);
  }

  /**
   * readCsv: a fresh default configuration, the header loop and the
   * completeness check when no index is preset, then the records.
   */
  method ReadCsv(file: CsvFile) returns (r: Result<seq<Transaction>>)
    ensures r == ReadDefault(file)
  {
    var config := GetConfig();
    if |config.columnIndexes| == 0 {
      ResolveHeader(config, file.header);
      var missing := MissingColumn(config.columnIndexes);
      if missing.Some? {
        r := Failure("failed to parse CSV: unable to locate column for transaction field " + FieldName(missing.value));
        assert ColumnIndexes(file.header, FieldsByName, map[]) == Failure(r.message);
        return;
      }
    }
    assert ColumnIndexes(file.header, FieldsByName, map[]) == Success(config.columnIndexes);
    if !SameWidth(file) {
      r := Failure("failed to read all records: wrong number of fields");
      assert ReadDefault(file) == r;
      return;
    }
    r := ParseRecords(file.records, config);
    assert ReadDefault(file) == Records(file.records, config.columnIndexes, DefaultMappings);
  }

  /** A failing prefix of the files makes the whole list fail the same way. */
  lemma {:induction false} ConcatPrefixFails(files: seq<CsvFile>, n: nat)
    requires n <= |files| && Concat(files[..n]).Failure?
    ensures Concat(files) == Concat(files[..n])
    decreases |files|
  {
    if n < |files| {
      var init := files[..|files| - 1];
      assert init[..n] == files[..n];
      ConcatPrefixFails(init, n);
    } else {
      assert files[..n] == files;
    }
  }

  /** LoadTransactions over the resolved files, read one after the other. */
  method LoadTransactions(files: seq<CsvFile>) returns (r: Result<seq<Transaction>>)
    ensures r == Load(files)
  {
    var allTxns: seq<Transaction> := [];
    if |files| == 0 {
      return Success(allTxns);
    }
    for i := 0 to |files|
      invariant Concat(files[..i]) == Success(allTxns)
    {
      assert files[..i + 1][..i] == files[..i];
      var txns := ReadCsv(files[i]);
      if txns.Failure? {
        ConcatPrefixFails(files, i + 1);
        return Failure(txns.message);
      }
      allTxns := allTxns + txns.value;
    }
    assert files[..|files|] == files;
    allTxns := SortBy(allTxns, DateLe);
    return Success(allTxns);
  }
}
