/**
 * The conversion of one CSV record into a transaction: each field is read
 * from its configured column and converted by its kind; a missing account
 * type is inferred from the account name; only a complete transaction is
 * returned. Every panic of the source is a Failure here.
 */
module CsvRecord {
  import opened Wrappers
  import opened Text
  import opened Numeric
  import opened Civil
  import opened Transactions
  import opened CsvConfig

  /** A value a transaction field can hold, one alternative per kind of field. */
  datatype FieldValue =
    | DateValue(date: Date)
    | TypeValue(txnType: TxnType)
    | AccountTypeValue(accountType: AccountType)
    | TextValue(text: string)
    | AmountValue(amount: real)

  /** The value has the kind of the field. */
  predicate Fits(f: Field, v: FieldValue) {
    match f
    case DateField => v.DateValue?
    case TypeField => v.TypeValue?
    case AccountTypeField => v.AccountTypeValue?
    case AmountField => v.AmountValue?
    case _ => v.TextValue?
  }

  /** Field `f` of `t`, looked up by name. */
  function Get(t: Transaction, f: Field): (v: FieldValue)
    ensures Fits(f, v)
  {
    match f
    case DateField => DateValue(t.date)
    case TypeField => TypeValue(t.txnType)
    case AccountTypeField => AccountTypeValue(t.accountType)
    case AccountField => TextValue(t.account)
    case CategoryField => TextValue(t.category)
    case AmountField => AmountValue(t.amount)
    case DescriptionField => TextValue(t.description)
  }

  /** `t` with field `f` set to `v`: that field reads back `v` and no other field changes. */
  function Set(t: Transaction, f: Field, v: FieldValue): (r: Transaction)
    requires Fits(f, v)
    ensures Get(r, f) == v
    ensures forall g :: g != f ==> Get(r, g) == Get(t, g)
  {
    match f
    case DateField => t.(date := v.date)
    case TypeField => t.(txnType := v.txnType)
    case AccountTypeField => t.(accountType := v.accountType)
    case AccountField => t.(account := v.text)
    case CategoryField => t.(category := v.text)
    case AmountField => t.(amount := v.amount)
    case DescriptionField => t.(description := v.text)
  }

  /**
   * The date of a cell: the first layout that parses it. With no layout at
   * all nothing is tried and the date stays the zero date.
   */
  function CellDate(formats: seq<Layout>, cell: string): Option<Date> {
    if formats == [] then Some(ZeroDate) else ParseFirst(formats, cell)
  }

  /**
   * The conversion of a cell by the kind of its field: the type and the
   * account type are looked up lower-cased in their tables, the amount is
   * read as a number, the date by the layouts in order, and text is kept
   * as it is.
   */
  function Convert(f: Field, cell: string, m: Mappings): (r: Result<FieldValue>)
    ensures r.Success? ==> Fits(f, r.value)
  {
    match f
    case TypeField =>
      if ToLower(cell) in m.txnTypeMappings then Success(TypeValue(m.txnTypeMappings[ToLower(cell)]))
      else Failure("parse CSV failed: transaction type " + cell + " not recognized")
    case AccountTypeField =>
      if ToLower(cell) in m.accountTypeMappings then Success(AccountTypeValue(m.accountTypeMappings[ToLower(cell)]))
      else Failure("parse CSV failed: account type " + cell + " not recognized")
    case AmountField =>
      if ParseDecimal(cell).Some? then Success(AmountValue(ParseDecimal(cell).value))
      else Failure("parse CSV failed: " + cell + " is not float")
    case DateField =>
      if CellDate(m.dateFormats, cell).Some? then Success(DateValue(CellDate(m.dateFormats, cell).value))
      else Failure("parse CSV failed: unsupported date format " + cell)
    case _ => Success(TextValue(cell))
  }

  /**
   * The account-type branch as the source writes it: a known cell is
   * converted to a transaction-type value, which reflection refuses to
   * store into the account-type field, so no cell gets through.
   */
  function ConvertAccountTypeAsWritten(cell: string, m: Mappings): (r: Result<FieldValue>)
    ensures r.Failure?
  {
    if ToLower(cell) !in m.accountTypeMappings then
      Failure("parse CSV failed: account type " + cell + " not recognized")
    else
      Failure("reflect.Set: value of type data.TransactionType is not assignable to type data.AccountType")
  }

  /**
   * Every cell the account-type table knows, "cash" for one, is refused by
   * the source and converted by the intended lookup.
   */
  lemma AccountTypeCellRefused(cell: string, m: Mappings)
    requires ToLower(cell) in m.accountTypeMappings
    ensures ConvertAccountTypeAsWritten(cell, m).Failure?
    ensures Convert(AccountTypeField, cell, m) == Success(AccountTypeValue(m.accountTypeMappings[ToLower(cell)]))
  {
  }

  /** Why field `f` stops the conversion: no column for it (except the account type), a short row, or a bad cell. */
  predicate Rejects(f: Field, segments: seq<string>, indexes: map<Field, nat>, m: Mappings) {
    if f !in indexes then f != AccountTypeField
    else indexes[f] >= |segments| || Convert(f, segments[indexes[f]], m).Failure?
  }

  /** The converted cell of `f` where there is one, otherwise `default`. */
  function Converted(f: Field, segments: seq<string>, indexes: map<Field, nat>, m: Mappings, default: FieldValue): FieldValue {
    if f in indexes && indexes[f] < |segments| && Convert(f, segments[indexes[f]], m).Success? then
      Convert(f, segments[indexes[f]], m).value
    else default
  }

  /** The field loop from `t` over `fields`. */
  function ConvertFields(t: Transaction, fields: seq<Field>, segments: seq<string>, indexes: map<Field, nat>, m: Mappings): Result<Transaction>
    decreases |fields|
  {
    if fields == [] then Success(t)
    else
      var f := fields[0];
      if f !in indexes then
        if f == AccountTypeField then ConvertFields(t, fields[1..], segments, indexes, m)
        else Failure("parse CSV failed: transaction field " + FieldName(f) + " not found")
      else if indexes[f] >= |segments| then
        Failure("parse CSV failed: transaction field " + FieldName(f) + "'s not found")
      else
        var v :- Convert(f, segments[indexes[f]], m);
        ConvertFields(Set(t, f, v), fields[1..], segments, indexes, m)
  }

  /** The field loop as written, where the account-type cell goes through ConvertAccountTypeAsWritten. */
  function ConvertFieldsAsWritten(t: Transaction, fields: seq<Field>, segments: seq<string>, indexes: map<Field, nat>, m: Mappings): Result<Transaction>
    decreases |fields|
  {
    if fields == [] then Success(t)
    else
      var f := fields[0];
      if f !in indexes then
        if f == AccountTypeField then ConvertFieldsAsWritten(t, fields[1..], segments, indexes, m)
        else Failure("parse CSV failed: transaction field " + FieldName(f) + " not found")
      else if indexes[f] >= |segments| then
        Failure("parse CSV failed: transaction field " + FieldName(f) + "'s not found")
      else
        var cell := segments[indexes[f]];
        var v :- if f == AccountTypeField then ConvertAccountTypeAsWritten(cell, m) else Convert(f, cell, m);
        ConvertFieldsAsWritten(Set(t, f, v), fields[1..], segments, indexes, m)
  }

  /**
   * As written, a field loop that meets an account-type column fails,
   * whatever the record holds; without that column it is the intended loop.
   */
  lemma {:induction false} FieldsAsWrittenOutcome(t: Transaction, fields: seq<Field>, segments: seq<string>, indexes: map<Field, nat>, m: Mappings)
    ensures AccountTypeField in indexes && AccountTypeField in fields ==>
            ConvertFieldsAsWritten(t, fields, segments, indexes, m).Failure?
    ensures AccountTypeField !in indexes ==>
            ConvertFieldsAsWritten(t, fields, segments, indexes, m) == ConvertFields(t, fields, segments, indexes, m)
    decreases |fields|
  {
    if fields != [] {
      var f := fields[0];
      assert forall g :: g in fields ==> g == f || g in fields[1..];
      if f !in indexes {
        FieldsAsWrittenOutcome(t, fields[1..], segments, indexes, m);
      } else if indexes[f] < |segments| {
        var cell := segments[indexes[f]];
        var v := if f == AccountTypeField then ConvertAccountTypeAsWritten(cell, m) else Convert(f, cell, m);
        if v.Success? {
          FieldsAsWrittenOutcome(Set(t, f, v.value), fields[1..], segments, indexes, m);
        }
      }
    }
  }

  /** The type the first matching pattern gives, or none when no pattern matches. */
  function MatchedType(table: seq<(NamePattern, AccountType)>, name: string): (a: AccountType)
    ensures (exists i :: 0 <= i < |table| && MatchesName(table[i].0, name) && a == table[i].1 &&
                         forall k :: 0 <= k < i ==> !MatchesName(table[k].0, name)) ||
            (a == AcctOverall && forall k :: 0 <= k < |table| ==> !MatchesName(table[k].0, name))
  {
    if table == [] then AcctOverall
    else if MatchesName(table[0].0, name) then table[0].1
    else
      var a := MatchedType(table[1..], name);
      assert forall k :: 1 <= k < |table| ==> table[k] == table[1..][k - 1];
      a
  }

  /**
   * A missing account type is inferred from the lower-cased account name:
   * the type of the first pattern that matches, or Credit Card when none
   * does. An empty table is an error.
   */
  function InferAccountType(t: Transaction, table: seq<(NamePattern, AccountType)>): Result<Transaction> {
    if t.accountType != AcctOverall then Success(t)
    else if table == [] then Failure("parse CSV failed: account name to type mapping is empty")
    else
      var a := MatchedType(table, ToLower(t.account));
      Success(t.(accountType := if a == AcctOverall then CreditCard else a))
  }

  /** parseCsvRecord: the fields, then the account type, then the validity check. */
  function Record(segments: seq<string>, indexes: map<Field, nat>, m: Mappings): Result<Transaction> {
    var t :- ConvertFields(EmptyTransaction, AllFields, segments, indexes, m);
    var u :- InferAccountType(t, m.accountTypeFromName);
    if IsValid(u) then Success(u) else Failure("parse CSV failed: transaction is incomplete")
  }

  /** parseCsvRecord as written: the same steps around the as-written field loop. */
  function RecordAsWritten(segments: seq<string>, indexes: map<Field, nat>, m: Mappings): Result<Transaction> {
    var t :- ConvertFieldsAsWritten(EmptyTransaction, AllFields, segments, indexes, m);
    var u :- InferAccountType(t, m.accountTypeFromName);
    if IsValid(u) then Success(u) else Failure("parse CSV failed: transaction is incomplete")
  }

  /**
   * As written, every record read with an account-type column fails (the
   * source panics on it); without that column the record converts as the
   * intended Record does.
   */
  lemma AccountTypeColumnRefused(segments: seq<string>, indexes: map<Field, nat>, m: Mappings)
    ensures AccountTypeField in indexes ==> RecordAsWritten(segments, indexes, m).Failure?
    ensures AccountTypeField !in indexes ==> RecordAsWritten(segments, indexes, m) == Record(segments, indexes, m)
  {
    AllFieldsComplete(AccountTypeField);
    FieldsAsWrittenOutcome(EmptyTransaction, AllFields, segments, indexes, m);
  }

  // Properties of the conversion

  predicate Distinct(fields: seq<Field>) {
    forall i, j :: 0 <= i < j < |fields| ==> fields[i] != fields[j]
  }

  /**
   * The field loop succeeds exactly when no field in it is rejected, and
   * then each field in it that has a column holds its converted cell while
   * every other field keeps its value.
   */
  lemma {:induction false} ConvertFieldsOutcome(t: Transaction, fields: seq<Field>, segments: seq<string>, indexes: map<Field, nat>, m: Mappings)
    requires Distinct(fields)
    ensures var r := ConvertFields(t, fields, segments, indexes, m);
            (r.Success? <==> forall f :: f in fields ==> !Rejects(f, segments, indexes, m)) &&
            (r.Success? ==> forall g :: Get(r.value, g) == if g in fields then Converted(g, segments, indexes, m, Get(t, g)) else Get(t, g))
    decreases |fields|
  {
    if fields != [] {
      var f := fields[0];
      assert forall i :: 1 <= i < |fields| ==> fields[i] == fields[1..][i - 1];
      assert forall g :: g in fields <==> g == f || g in fields[1..];
      assert Distinct(fields[1..]);
      if f !in indexes && f == AccountTypeField {
        assert !Rejects(f, segments, indexes, m);
        ConvertFieldsOutcome(t, fields[1..], segments, indexes, m);
      } else if f !in indexes {
        assert Rejects(f, segments, indexes, m);
      } else if indexes[f] < |segments| && Convert(f, segments[indexes[f]], m).Success? {
        var v := Convert(f, segments[indexes[f]], m).value;
        ConvertFieldsOutcome(Set(t, f, v), fields[1..], segments, indexes, m);
        assert f !in fields[1..];
      } else {
        assert Rejects(f, segments, indexes, m);
      }
    }
  }

  lemma AllFieldsDistinct()
    ensures Distinct(AllFields)
  {
  }

  /** The field loop over every field: it succeeds exactly when no field is rejected, and sets every field with a column. */
  lemma AllFieldsOutcome(segments: seq<string>, indexes: map<Field, nat>, m: Mappings)
    ensures var r := ConvertFields(EmptyTransaction, AllFields, segments, indexes, m);
            (r.Success? <==> forall f :: !Rejects(f, segments, indexes, m)) &&
            (r.Success? ==> forall g :: Get(r.value, g) == Converted(g, segments, indexes, m, Get(EmptyTransaction, g)))
  {
    AllFieldsDistinct();
    ConvertFieldsOutcome(EmptyTransaction, AllFields, segments, indexes, m);
    assert forall f :: f in AllFields by {
      forall f ensures f in AllFields {
        AllFieldsComplete(f);
      }
    }
  }

  /** A record with a rejected field is an error; one that converts is a complete transaction. */
  lemma RecordRejects(segments: seq<string>, indexes: map<Field, nat>, m: Mappings)
    ensures (exists f :: Rejects(f, segments, indexes, m)) ==> Record(segments, indexes, m).Failure?
    ensures Record(segments, indexes, m).Success? ==> IsValid(Record(segments, indexes, m).value)
  {
    AllFieldsOutcome(segments, indexes, m);
  }

  /** Every field other than the account type holds the converted cell of its column. */
  lemma RecordFields(segments: seq<string>, indexes: map<Field, nat>, m: Mappings)
    requires Record(segments, indexes, m).Success?
    ensures forall f :: f != AccountTypeField ==>
              Get(Record(segments, indexes, m).value, f) == Converted(f, segments, indexes, m, Get(EmptyTransaction, f))
  {
    AllFieldsOutcome(segments, indexes, m);
  }

  /**
   * The account type is the converted cell of its column when that names a
   * type; without the column it is inferred from the lower-cased account
   * name by a table that is not empty, Credit Card when no pattern matches.
   */
  lemma RecordAccountType(segments: seq<string>, indexes: map<Field, nat>, m: Mappings)
    requires Record(segments, indexes, m).Success?
    ensures var t := Record(segments, indexes, m).value;
            var a := Converted(AccountTypeField, segments, indexes, m, AccountTypeValue(AcctOverall));
            (a != AccountTypeValue(AcctOverall) ==> Get(t, AccountTypeField) == a) &&
            (a == AccountTypeValue(AcctOverall) ==>
               m.accountTypeFromName != [] &&
               t.accountType == var b := MatchedType(m.accountTypeFromName, ToLower(t.account)); if b == AcctOverall then CreditCard else b)
  {
    AllFieldsOutcome(segments, indexes, m);
    var t0 := ConvertFields(EmptyTransaction, AllFields, segments, indexes, m).value;
    assert Record(segments, indexes, m) == InferAccountType(t0, m.accountTypeFromName);
    assert Get(t0, AccountTypeField) == Converted(AccountTypeField, segments, indexes, m, AccountTypeValue(AcctOverall));
  }

  /** Account, category and description are the cells of their columns, unchanged. */
  lemma RecordText(segments: seq<string>, indexes: map<Field, nat>, m: Mappings)
    requires Record(segments, indexes, m).Success?
    ensures var t := Record(segments, indexes, m).value;
            (forall f :: f in {AccountField, CategoryField, DescriptionField} ==>
               f in indexes && indexes[f] < |segments| && Get(t, f) == TextValue(segments[indexes[f]]))
  {
    RecordRejects(segments, indexes, m);
    RecordFields(segments, indexes, m);
    forall f | f in {AccountField, CategoryField, DescriptionField}
      ensures f in indexes && indexes[f] < |segments|
    {
      assert !Rejects(f, segments, indexes, m);
    }
  }

  /**
   * The date loop: the layouts are tried in order until one parses the
   * cell. When none does, the error of the last attempt remains; with no
   * layout there is no error and the date is the zero date.
   */
  method ParseDateCell(formats: seq<Layout>, value: string) returns (r: Option<Date>)
    ensures r == CellDate(formats, value)
  {
    var parsed := ZeroDate;
    var failed := false;
    var i := 0;
    while i < |formats|
      invariant 0 <= i <= |formats|
      invariant failed <==> i > 0
      invariant parsed == ZeroDate
      invariant formats != [] ==> ParseFirst(formats, value) == ParseFirst(formats[i..], value)
    {
      assert formats[i..][0] == formats[i] && formats[i..][1..] == formats[i + 1..];
      var p := ParseLayout(formats[i], value);
      if p.Some? {
        return p;
      }
      parsed, failed := ZeroDate, true;
      i := i + 1;
    }
    assert formats[i..] == [];
    if failed {
      return None;
    }
    assert formats == [];
    return Some(parsed);
  }

  /** The conversion of one cell by the kind of its field. */
  method ConvertCell(f: Field, value: string, m: Mappings) returns (r: Result<FieldValue>)
    ensures r == Convert(f, value, m)
  {
    match f {
      case TypeField =>
        var key := ToLower(value);
        if key !in m.txnTypeMappings {
          return Failure("parse CSV failed: transaction type " + value + " not recognized");
        }
        return Success(TypeValue(m.txnTypeMappings[key]));
      case AccountTypeField =>
        var key := ToLower(value);
        if key !in m.accountTypeMappings {
          return Failure("parse CSV failed: account type " + value + " not recognized");
        }
        return Success(AccountTypeValue(m.accountTypeMappings[key]));
      case AmountField =>
        var num := ParseDecimal(value);
        if num.None? {
          return Failure("parse CSV failed: " + value + " is not float");
        }
        return Success(AmountValue(num.value));
      case DateField =>
        var parsed := ParseDateCell(m.dateFormats, value);
        if parsed.None? {
          return Failure("parse CSV failed: unsupported date format " + value);
        }
        return Success(DateValue(parsed.value));
      case _ =>
        return Success(TextValue(value));
    }
  }

  /** The pattern loop: the type of the first pattern matching `name`, none when no pattern matches. */
  method MatchAccountName(table: seq<(NamePattern, AccountType)>, name: string) returns (a: AccountType)
    ensures a == MatchedType(table, name)
  {
    a := AcctOverall;
    var j := 0;
    while j < |table|
      invariant 0 <= j <= |table|
      invariant MatchedType(table, name) == MatchedType(table[j..], name)
    {
      assert table[j..][0] == table[j] && table[j..][1..] == table[j + 1..];
      if MatchesName(table[j].0, name) {
        a := table[j].1;
        break;
      }
      j := j + 1;
    }
    if j == |table| {
      assert table[j..] == [];
    }
  }

  /** parseCsvRecord over the cells of one record and the configuration. */
  method ParseCsvRecord(segments: seq<string>, config: Config) returns (r: Result<Transaction>)
    ensures r == Record(segments, config.columnIndexes, config.Tables())
  {
    var m := config.Tables();
    var fields := ConvertRecordFields(segments, config.columnIndexes, m);
    if fields.Failure? {
      return Failure(fields.message);
    }
    var typed := InferAccount(fields.value, m.accountTypeFromName);
    if typed.Failure? {
      return Failure(typed.message);
    }
    var txn := typed.value;
    if IsValid(txn) {
      return Success(txn);
    }
    return Failure("parse CSV failed: transaction is incomplete");
  }

  /** The field loop of parseCsvRecord. */
  method ConvertRecordFields(segments: seq<string>, indexes: map<Field, nat>, m: Mappings) returns (r: Result<Transaction>)
    ensures r == ConvertFields(EmptyTransaction, AllFields, segments, indexes, m)
  {
    var txn := EmptyTransaction;
    for i := 0 to |AllFields|
      invariant ConvertFields(EmptyTransaction, AllFields, segments, indexes, m) ==
                ConvertFields(txn, AllFields[i..], segments, indexes, m)
    {
      var f := AllFields[i];
      assert AllFields[i..][0] == f && AllFields[i..][1..] == AllFields[i + 1..];
      if f !in indexes {
        if f == AccountTypeField {
          continue;
        }
        return Failure("parse CSV failed: transaction field " + FieldName(f) + " not found");
      }
      var index := indexes[f];
      if index >= |segments| {
        return Failure("parse CSV failed: transaction field " + FieldName(f) + "'s not found");
      }
      var v := ConvertCell(f, segments[index], m);
      if v.Failure? {
        return Failure(v.message);
      }
      txn := Set(txn, f, v.value);
    }
    assert AllFields[|AllFields|..] == [];
    return Success(txn);
  }

  /** The account-type fallback of parseCsvRecord, for a record without an account type. */
  method InferAccount(txn: Transaction, table: seq<(NamePattern, AccountType)>) returns (r: Result<Transaction>)
    ensures r == InferAccountType(txn, table)
  {
    if txn.accountType != AcctOverall {
      return Success(txn);
    }
    if |table| == 0 {
      return Failure("parse CSV failed: account name to type mapping is empty");
    }
    var a := MatchAccountName(table, ToLower(txn.account));
    var u := txn.(accountType := a);
    if u.accountType == AcctOverall {
      u := u.(accountType := CreditCard);
    }
    return Success(u);
  }
}
