/**
 * The CSV mapping configuration: which header names are which transaction
 * fields, the date layouts to try, and the tables that turn type and
 * account-type cells, or account names, into the record's enumerations.
 */
module CsvConfig {
  import opened Text
  import opened Civil
  import opened Transactions

  /**
   * The two regular-expression shapes of the account-name table: "^x$"
   * matches the whole name x, and "x$" any name ending in x. Both are
   * literal apart from the anchors.
   */
  datatype NamePattern = Whole(text: string) | Suffix(text: string)

  /** The pattern as it is written in the table. */
  function PatternSource(p: NamePattern): string {
    match p
    case Whole(t) => "^" + t + "$"
    case Suffix(t) => t + "$"
  }

  /** regexp.MatchString for the pattern on a name. */
  predicate MatchesName(p: NamePattern, name: string) {
    match p
    case Whole(t) => name == t
    case Suffix(t) => |t| <= |name| && name[|name| - |t|..] == t
  }

  const DefaultDateFormats: seq<Layout> := [IsoDate, IsoDateTime, UsDate, UsDateTime]

  const DefaultTxnTypeMappings: map<string, TxnType> :=
    map["income" := Income, "inc." := Income, "expense" := Expense, "exp." := Expense, "exps." := Expense]

  const DefaultAccountTypeMappings: map<string, AccountType> :=
    map["cash" := Cash,
        "bank account" := BankAccount, "bankaccount" := BankAccount, "bank" := BankAccount,
        "checking account" := BankAccount, "checking" := BankAccount,
        "saving account" := BankAccount, "saving" := BankAccount,
        "credit card" := CreditCard, "creditcard" := CreditCard, "credit" := CreditCard, "cc" := CreditCard]

  /** The account-name table; the source keeps it in a map, whose order of iteration is unspecified. */
  const DefaultAccountTypeFromName: seq<(NamePattern, AccountType)> :=
    [(Whole("cash"), Cash), (Suffix("checking"), BankAccount), (Suffix("saving"), BankAccount)]

  /** The tables a record conversion reads. */
  datatype Mappings = Mappings(
    dateFormats: seq<Layout>,
    txnTypeMappings: map<string, TxnType>,
    accountTypeMappings: map<string, AccountType>,
    accountTypeFromName: seq<(NamePattern, AccountType)>)

  /** The tables of the default configuration. */
  const DefaultMappings: Mappings :=
    Mappings(DefaultDateFormats, DefaultTxnTypeMappings, DefaultAccountTypeMappings, DefaultAccountTypeFromName)

  /** Every field under its own name. */
  const FieldsByName: map<string, Field> :=
    map["Date" := DateField, "Type" := TypeField, "AccountType" := AccountTypeField, "Account" := AccountField,
        "Category" := CategoryField, "Amount" := AmountField, "Description" := DescriptionField]

  /** The map from header name to field that the default configuration builds. */
  method FieldColumns() returns (columns: map<string, Field>)
    ensures forall f :: FieldName(f) in columns && columns[FieldName(f)] == f
    ensures forall k :: k in columns ==> FieldName(columns[k]) == k
    ensures columns == FieldsByName
  {
    columns := map[];
    for i := 0 to |AllFields|
      invariant forall k :: k in columns ==> FieldName(columns[k]) == k
      invariant forall j :: 0 <= j < i ==> FieldName(AllFields[j]) in columns && columns[FieldName(AllFields[j])] == AllFields[j]
    {
      columns := columns[FieldName(AllFields[i]) := AllFields[i]];
    }
    EveryFieldColumn(columns);
    ColumnsByName(columns);
  }

  lemma EveryFieldColumn(columns: map<string, Field>)
    requires forall j :: 0 <= j < |AllFields| ==> FieldName(AllFields[j]) in columns && columns[FieldName(AllFields[j])] == AllFields[j]
    ensures forall f :: FieldName(f) in columns && columns[FieldName(f)] == f
  {
    forall f ensures FieldName(f) in columns && columns[FieldName(f)] == f {
      var j := FieldIndex(f);
      assert FieldName(AllFields[j]) in columns && columns[FieldName(AllFields[j])] == AllFields[j];
    }
  }

  /** A map holding every field under its name, and nothing else, is FieldsByName. */
  lemma ColumnsByName(columns: map<string, Field>)
    requires forall f :: FieldName(f) in columns && columns[FieldName(f)] == f
    requires forall k :: k in columns ==> FieldName(columns[k]) == k
    ensures columns == FieldsByName
  {
    forall k | k in columns
      ensures k in FieldsByName && FieldsByName[k] == columns[k]
    {
      FieldsByNameOf(columns[k]);
    }
    forall k | k in FieldsByName
      ensures k in columns
    {
      assert FieldName(FieldsByName[k]) == k;
    }
  }

  lemma FieldsByNameOf(f: Field)
    ensures FieldName(f) in FieldsByName && FieldsByName[FieldName(f)] == f
  {
  }

  /** A CSV configuration; reading a file fills in its column indexes. */
  class Config {
    var columns: map<string, Field>
    var columnIndexes: map<Field, nat>
    var dateFormats: seq<Layout>
    var txnTypeMappings: map<string, TxnType>
    var accountTypeMappings: map<string, AccountType>
    var accountTypeFromName: seq<(NamePattern, AccountType)>

    function Tables(): Mappings
      reads this
    {
      Mappings(dateFormats, txnTypeMappings, accountTypeMappings, accountTypeFromName)
    }

    /** The default configuration, with no column index set. */
    constructor Default()
      ensures forall f :: FieldName(f) in columns && columns[FieldName(f)] == f
      ensures forall k :: k in columns ==> FieldName(columns[k]) == k
      ensures columns == FieldsByName
      ensures columnIndexes == map[]
      ensures Tables() == DefaultMappings
    {
      var c := FieldColumns();
      columns := c;
      columnIndexes := map[];
      dateFormats := DefaultDateFormats;
      txnTypeMappings := DefaultTxnTypeMappings;
      accountTypeMappings := DefaultAccountTypeMappings;
      accountTypeFromName := DefaultAccountTypeFromName;
    }
  }

  /** Every call builds a new default configuration, so column indexes found for one file never reach another. */
  method GetConfig() returns (c: Config)
    ensures fresh(c)
    ensures c.columnIndexes == map[]
    ensures forall f :: FieldName(f) in c.columns && c.columns[FieldName(f)] == f
    ensures forall k :: k in c.columns ==> FieldName(c.columns[k]) == k
    ensures c.columns == FieldsByName
    ensures c.Tables() == DefaultMappings
  {
    c := new Config.Default();
  }

  // Properties of the default tables

  /**
   * The type table reads "income" and "inc." as Income and "expense",
   * "exp." and "exps." as Expense; its keys are lower case, so the
   * lower-cased cell is what is looked up.
   */
  lemma TxnTypeTable(k: string)
    ensures k in DefaultTxnTypeMappings ==> IsLower(k) && DefaultTxnTypeMappings[k] != NoType
    ensures k in DefaultTxnTypeMappings && DefaultTxnTypeMappings[k] == Income <==> k == "income" || k == "inc."
    ensures k in DefaultTxnTypeMappings && DefaultTxnTypeMappings[k] == Expense <==> k == "expense" || k == "exp." || k == "exps."
  {
  }

  /** Every account-type key is lower case and names one of the three account types. */
  lemma AccountTypeTable(k: string)
    requires k in DefaultAccountTypeMappings
    ensures IsLower(k) && DefaultAccountTypeMappings[k] in {Cash, BankAccount, CreditCard}
  {
  }

  /** "cash" is one of the account-type keys. */
  lemma CashIsAccountType()
    ensures "cash" in DefaultAccountTypeMappings && DefaultAccountTypeMappings["cash"] == Cash
  {
  }

  /**
   * The account-name table has three entries: "^cash$" for Cash and
   * "checking$" and "saving$" for Bank Account. No name matches two of them,
   * so the order the map is walked in cannot change the outcome.
   */
  lemma AccountNameTable(name: string)
    ensures |DefaultAccountTypeFromName| == 3
    ensures PatternSource(DefaultAccountTypeFromName[0].0) == "^cash$" && DefaultAccountTypeFromName[0].1 == Cash
    ensures PatternSource(DefaultAccountTypeFromName[1].0) == "checking$" && DefaultAccountTypeFromName[1].1 == BankAccount
    ensures PatternSource(DefaultAccountTypeFromName[2].0) == "saving$" && DefaultAccountTypeFromName[2].1 == BankAccount
    ensures forall i, j :: 0 <= i < j < |DefaultAccountTypeFromName| && MatchesName(DefaultAccountTypeFromName[i].0, name) ==>
                           !MatchesName(DefaultAccountTypeFromName[j].0, name)
  {
    if MatchesName(Suffix("checking"), name) {
      assert name[|name| - 6] == name[|name| - 8..][2] == 'e';
    }
  }
}
