/**
 * The transaction record and its enumerations: transaction type, account
 * type and the field names used by the CSV configuration.
 */
module Transactions {
  import opened Wrappers
  import opened Civil

  /** A transaction type; `NoType` is the empty string a parser leaves unset. */
  datatype TxnType = NoType | Income | Expense

  function TypeName(t: TxnType): string {
    match t
    case NoType => ""
    case Income => "Income"
    case Expense => "Expense"
  }

  /**
   * An account type; `AcctOverall` is the empty string, both "unset" on a
   * transaction and the type of the all-accounts row of the account table.
   */
  datatype AccountType = AcctOverall | Cash | BankAccount | CreditCard

  function AccountTypeName(a: AccountType): string {
    match a
    case AcctOverall => ""
    case Cash => "Cash"
    case BankAccount => "Bank Account"
    case CreditCard => "Credit Card"
  }

  /** Go's zero time, whose date part is 0001-01-01. */
  const ZeroDate: Date := CivilDate(1, 1, 1)

  datatype Transaction = Transaction(
    date: Date,
    txnType: TxnType,
    accountType: AccountType,
    account: string,
    category: string,
    amount: real,
    description: string)

  /** The empty transaction a parser starts from. */
  const EmptyTransaction := Transaction(ZeroDate, NoType, AcctOverall, "", "", 0.0, "")

  /** A complete transaction: a date, both types, an account, a category, a positive amount and a description. */
  predicate IsValid(t: Transaction) {
    t.date != ZeroDate && t.txnType != NoType && t.accountType != AcctOverall &&
    t.account != "" && t.category != "" && t.amount > 0.0 && t.description != ""
  }

  /** The decoding of a JSON string into a transaction type: only "Income" and "Expense" are accepted. */
  function ParseTxnType(s: string): (r: Result<TxnType>)
    ensures r.Success? <==> s == "Income" || s == "Expense"
    ensures r.Success? ==> r.value != NoType && TypeName(r.value) == s
  {
    if s == "Income" then Success(Income)
    else if s == "Expense" then Success(Expense)
    else Failure("invalid TransactionType: " + s)
  }

  /** The decoding of a JSON string into an account type: only the three named types are accepted. */
  function ParseAccountType(s: string): (r: Result<AccountType>)
    ensures r.Success? <==> s == "Cash" || s == "Bank Account" || s == "Credit Card"
    ensures r.Success? ==> r.value != AcctOverall && AccountTypeName(r.value) == s
  {
    if s == "Cash" then Success(Cash)
    else if s == "Bank Account" then Success(BankAccount)
    else if s == "Credit Card" then Success(CreditCard)
    else Failure("invalid AccountType: " + s)
  }

  /** The fields of a transaction, in declaration order. */
  datatype Field = DateField | TypeField | AccountTypeField | AccountField | CategoryField | AmountField | DescriptionField

  /** The field's name as it appears in configuration files. */
  function FieldName(f: Field): string {
    match f
    case DateField => "Date"
    case TypeField => "Type"
    case AccountTypeField => "AccountType"
    case AccountField => "Account"
    case CategoryField => "Category"
    case AmountField => "Amount"
    case DescriptionField => "Description"
  }

  /** Every field, in the order the record declares them. */
  const AllFields: seq<Field> := [DateField, TypeField, AccountTypeField, AccountField, CategoryField, AmountField, DescriptionField]

  /** Every field appears in AllFields exactly once. */
  lemma AllFieldsComplete(f: Field)
    ensures f in AllFields && multiset(AllFields)[f] == 1
  {
  }

  /** The position of a field in AllFields. */
  function FieldIndex(f: Field): (i: nat)
    ensures i < |AllFields| && AllFields[i] == f
  {
    match f
    case DateField => 0
    case TypeField => 1
    case AccountTypeField => 2
    case AccountField => 3
    case CategoryField => 4
    case AmountField => 5
    case DescriptionField => 6
  }

  lemma FieldNameInjective(f: Field, g: Field)
    ensures FieldName(f) == FieldName(g) <==> f == g
  {
    if f != g {
      assert |FieldName(f)| != |FieldName(g)| || FieldName(f)[0] != FieldName(g)[0];
    }
  }

  /**
   * The decoding of a field name: the names of AllFields are tried in order
   * and the first equal one is the result; an unknown name is an error.
   */
  function ParseField(s: string): (r: Result<Field>)
    ensures r.Success? <==> exists f :: FieldName(f) == s
    ensures r.Success? ==> FieldName(r.value) == s
  {
    var r := FindField(s, 0);
    if r.Failure? then
      assert forall f :: FieldName(f) != s by {
        forall f ensures FieldName(f) != s {
          AllFieldsComplete(f);
        }
      }
      r
    else r
  }

  /** The search of ParseField from position `i` of AllFields on. */
  function FindField(s: string, i: nat): (r: Result<Field>)
    requires i <= |AllFields|
    ensures r.Success? ==> FieldName(r.value) == s
    ensures r.Failure? ==> forall j :: i <= j < |AllFields| ==> FieldName(AllFields[j]) != s
    decreases |AllFields| - i
  {
    if i == |AllFields| then Failure("invalid TransactionField: " + s)
    else if FieldName(AllFields[i]) == s then Success(AllFields[i])
    else FindField(s, i + 1)
  }

  /** Decoding a field's own name gives the field back. */
  lemma ParseFieldName(f: Field)
    ensures ParseField(FieldName(f)) == Success(f)
  {
    var r := ParseField(FieldName(f));
    FieldNameInjective(r.value, f);
  }

  /** The glyphs shown for a transaction's type and for its account's type. */
  const IncomeSymbol: string := "\U{F1679}"
  const ExpenseSymbol: string := "\U{F155}"
  const CashSymbol: string := "\U{F0114}"
  const BankSymbol: string := "\U{F0070}"
  const CardSymbol: string := "\U{F019B}"

  /** A transaction's type symbol: a glyph for Income and for Expense, nothing for an unset type. */
  function TypeSymbol(t: TxnType): (r: string)
    ensures r == "" <==> t == NoType
  {
    match t
    case Income => IncomeSymbol
    case Expense => ExpenseSymbol
    case NoType => ""
  }

  /** A transaction's account symbol: a glyph per account type, nothing for an unset type. */
  function AccountSymbol(a: AccountType): (r: string)
    ensures r == "" <==> a == AcctOverall
  {
    match a
    case Cash => CashSymbol
    case BankAccount => BankSymbol
    case CreditCard => CardSymbol
    case AcctOverall => ""
  }

  /** Different types never share a symbol, so a symbol identifies its type. */
  lemma SymbolsInjective(t: TxnType, u: TxnType, a: AccountType, b: AccountType)
    ensures TypeSymbol(t) == TypeSymbol(u) ==> t == u
    ensures AccountSymbol(a) == AccountSymbol(b) ==> a == b
  {
    if t != u && TypeSymbol(t) != "" && TypeSymbol(u) != "" {
      assert TypeSymbol(t)[0] != TypeSymbol(u)[0];
    }
    if a != b && AccountSymbol(a) != "" && AccountSymbol(b) != "" {
      assert AccountSymbol(a)[0] != AccountSymbol(b)[0];
    }
  }
}
