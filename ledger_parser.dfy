/**
 * The hledger journal parser of the ledger data source: a loop over the
 * lines that collects the fields of a transaction from its header and its
 * postings and emits the transaction on the second posting. A header resets
 * the posting count; an emit does not.
 */
module LedgerParser {
  import opened Wrappers
  import opened Text
  import opened Numeric
  import opened Civil
  import opened Transactions
  import opened JournalSyntax

  /** The text strconv.ParseFloat receives: the posting's number without commas or '$'. */
  function AmountText(p: Posting): string {
    RemoveChar(RemoveChar(p.number, ','), '$')
  }

  /** The effect of one line on the loop variables, or the error that ends the loop. */
  function Step(st: ParserState, line: string): Result<ParserState> {
    if IsSkipLine(line) then Success(st)
    else match ParseHeader(line)
    case Some(h) => HeaderStep(st, h)
    case None =>
      match ParsePosting(line, 2)
      case None => Success(st)
      case Some(p) => PostingStep(st, p)
  }

  /** A header resets the posting count and sets the date and the description. */
  function HeaderStep(st: ParserState, h: Header): Result<ParserState> {
    match ParseIsoDate(h.dateText)
    case None => Failure("failed to parse date " + h.dateText)
    case Some(d) => Success(st.(postings := 0, date := d, description := h.description))
  }

  /** A posting counts, sets the amount and its field, and emits on reaching two. */
  function PostingStep(st: ParserState, p: Posting): Result<ParserState> {
    match ParseDecimal(AmountText(p))
    case None => Failure("failed to parse amount " + AmountText(p))
    case Some(v) =>
      var st1 := Assign(st.(postings := st.postings + 1, amount := Abs(v)), p.kind, p.name);
      Success(if st1.postings == 2 then st1.(txns := st1.txns + [Emit(st1)]) else st1)
  }

  lemma PostingStepOf(st: ParserState, p: Posting, v: real)
    requires ParseDecimal(AmountText(p)) == Some(v)
    ensures var st1 := Assign(st.(postings := st.postings + 1, amount := Abs(v)), p.kind, p.name);
            PostingStep(st, p) == Success(if st1.postings == 2 then st1.(txns := st1.txns + [Emit(st1)]) else st1)
  {
  }

  /** The loop from state `st` over `lines`. */
  function Run(st: ParserState, lines: seq<string>): Result<ParserState>
    decreases |lines|
  {
    if lines == [] then Success(st)
    else
      var next :- Step(st, lines[0]);
      Run(next, lines[1..])
  }

  /** parseJournal: the transactions of the journal, or the first error. */
  function Parse(lines: seq<string>): Result<seq<Transaction>> {
    var st :- Run(Initial, lines);
    Success(st.txns)
  }

  lemma RunStep(st: ParserState, lines: seq<string>, i: nat)
    requires i < |lines|
    ensures Run(st, lines[i..]) ==
            match Step(st, lines[i])
            case Failure(e) => Failure(e)
            case Success(next) => Run(next, lines[i + 1..])
  {
    assert lines[i..][0] == lines[i] && lines[i..][1..] == lines[i + 1..];
  }

  // Properties of the line loop

  /** Empty and comment lines leave every variable as it is. */
  lemma SkipLine(st: ParserState, line: string)
    requires IsSkipLine(line)
    ensures Step(st, line) == Success(st)
  {
  }

  /** A line that is neither header nor posting is skipped without an error. */
  lemma UnrecognisedLine(st: ParserState, line: string)
    requires ParseHeader(line).None? && ParsePosting(line, 2).None?
    ensures Step(st, line) == Success(st)
  {
  }

  /**
   * A header resets the posting count and sets the date and description, or
   * fails when its date does not exist; nothing else changes.
   */
  lemma HeaderLine(st: ParserState, line: string)
    requires ParseHeader(line).Some?
    ensures var h := ParseHeader(line).value;
            var r := Step(st, line);
            (r.Success? <==> ParseIsoDate(h.dateText).Some?) &&
            (r.Success? ==> r.value == st.(postings := 0, date := ParseIsoDate(h.dateText).value, description := h.description))
  {
    assert line[0] != ';' && line[0] != '#' by {
      assert IsAsciiDigit(line[..10][0]);
    }
  }

  /** The amount of a posting: the number without commas, whatever the sign before it. */
  lemma PostingAmount(p: Posting)
    requires IsLedgerNumber(p.number)
    ensures AmountText(p) == RemoveChar(p.number, ',')
    ensures ParseDecimal(AmountText(p)).Some? <==> HasDigit(p.number)
    ensures ParseDecimal(AmountText(p)).Some? ==> Abs(ParseDecimal(AmountText(p)).value) == ParseDecimal(AmountText(p)).value
  {
    RemoveCommas(p.number);
    RemoveCharAbsent(RemoveChar(p.number, ','), '$');
    LedgerNumberParses(p.number);
  }

  /** A line that is a posting and no header is read as that posting. */
  lemma PostingLine(st: ParserState, line: string, p: Posting)
    requires ParseHeader(line).None? && ParsePosting(line, 2) == Some(p)
    ensures Step(st, line) == PostingStep(st, p)
  {
    PostingNotSkipped(line, 2);
  }

  /**
   * A posting fails only when its number has no digit. Otherwise it
   * counts one more posting, stores the value of its number as
   * the amount, sets the field its account type names and, exactly when the
   * count becomes two, appends the transaction.
   */
  lemma PostingEffect(st: ParserState, p: Posting)
    requires IsLedgerNumber(p.number)
    ensures PostingStep(st, p).Success? <==> HasDigit(p.number)
    ensures PostingStep(st, p).Success? ==>
            var r := PostingStep(st, p).value;
            var a := Assign(st, p.kind, p.name);
            r.postings == st.postings + 1 &&
            ParseDecimal(RemoveChar(p.number, ',')) == Some(r.amount) && r.amount >= 0.0 &&
            r.date == st.date && r.description == st.description &&
            r.txnType == a.txnType && r.category == a.category && r.account == a.account &&
            r.txns == st.txns + (if st.postings + 1 == 2 then [Emit(r)] else [])
  {
    PostingAmount(p);
    if HasDigit(p.number) {
      PostingStepOf(st, p, ParseDecimal(AmountText(p)).value);
    }
  }

  /** The number of header lines, the lines that reset the posting count. */
  function Headers(lines: seq<string>): nat {
    if lines == [] then 0
    else (if !IsSkipLine(lines[0]) && ParseHeader(lines[0]).Some? then 1 else 0) + Headers(lines[1..])
  }

  /**
   * What the loop keeps true: every emitted transaction has no account type
   * and a non-negative amount, and at most one transaction per header
   * follows the first one.
   */
  predicate Invariant(st: ParserState, headers: nat) {
    st.amount >= 0.0 &&
    (forall t :: t in st.txns ==> t.accountType == AcctOverall && t.amount >= 0.0) &&
    |st.txns| + (if st.postings < 2 then 1 else 0) <= headers + 1
  }

  lemma StepInvariant(st: ParserState, line: string, h: nat)
    requires Invariant(st, h) && Step(st, line).Success?
    ensures Invariant(Step(st, line).value, h + Headers([line]))
  {
    assert Headers([line]) == (if !IsSkipLine(line) && ParseHeader(line).Some? then 1 else 0) by {
      assert [line][1..] == [];
    }
    if !IsSkipLine(line) && ParseHeader(line).None? && ParsePosting(line, 2).Some? {
      PostingLine(st, line, ParsePosting(line, 2).value);
      PostingEffect(st, ParsePosting(line, 2).value);
    } else if !IsSkipLine(line) && ParseHeader(line).Some? {
      HeaderLine(st, line);
    }
  }

  lemma StepAppends(st: ParserState, line: string)
    requires Step(st, line).Success?
    ensures st.txns <= Step(st, line).value.txns
  {
    if !IsSkipLine(line) && ParseHeader(line).None? && ParsePosting(line, 2).Some? {
      PostingLine(st, line, ParsePosting(line, 2).value);
      PostingEffect(st, ParsePosting(line, 2).value);
    } else if !IsSkipLine(line) && ParseHeader(line).Some? {
      HeaderLine(st, line);
    }
  }

  /** The loop keeps the invariant, counting the headers it reads, and only appends to its output. */
  lemma {:induction false} RunInvariant(st: ParserState, lines: seq<string>, h: nat)
    requires Invariant(st, h) && Run(st, lines).Success?
    ensures Invariant(Run(st, lines).value, h + Headers(lines))
    ensures st.txns <= Run(st, lines).value.txns
    decreases |lines|
  {
    if lines != [] {
      var next := Step(st, lines[0]).value;
      StepInvariant(st, lines[0], h);
      assert Headers(lines) == Headers([lines[0]]) + Headers(lines[1..]) by {
        assert [lines[0]][1..] == [];
      }
      RunInvariant(next, lines[1..], h + Headers([lines[0]]));
      StepAppends(st, lines[0]);
    }
  }

  /**
   * The transactions of a journal have no account type and non-negative
   * amounts, and there are at most one more of them than header lines.
   */
  lemma ParseResult(lines: seq<string>)
    requires Parse(lines).Success?
    ensures forall t :: t in Parse(lines).value ==> t.accountType == AcctOverall && t.amount >= 0.0
    ensures |Parse(lines).value| <= Headers(lines) + 1
  {
    RunInvariant(Initial, lines, 0);
  }

  /** A header whose date does not exist makes the whole journal an error, with no transactions. */
  lemma {:induction false} BadDateFails(st: ParserState, lines: seq<string>, i: nat)
    requires i < |lines| && ParseHeader(lines[i]).Some? && ParseIsoDate(ParseHeader(lines[i]).value.dateText).None?
    ensures Run(st, lines).Failure?
    decreases i
  {
    if i == 0 {
      HeaderLine(st, lines[0]);
    } else if Step(st, lines[0]).Success? {
      BadDateFails(Step(st, lines[0]).value, lines[1..], i - 1);
    }
  }

  /**
   * The body of the loop for a posting line: count it, parse its amount,
   * set the field its account type names, and emit on the second posting.
   */
  method ReadPosting(st: ParserState, p: Posting) returns (r: Result<ParserState>)
    ensures r == PostingStep(st, p)
  {
    var numPostings := st.postings + 1;
    var amountStr := RemoveChar(RemoveChar(p.number, ','), '$');
    var amount := ParseDecimal(amountStr);
    if amount.None? {
      return Failure("failed to parse amount " + amountStr);
    }
    var transactionAmount := Abs(amount.value);
    var transactionType, transactionCategory, transactionAccount := st.txnType, st.category, st.account;
    if p.kind == KindExpenses {
      transactionType := Expense;
      transactionCategory := p.name;
    } else if p.kind == KindIncome {
      transactionType := Income;
      transactionCategory := p.name;
    } else if p.kind == KindAssets || p.kind == KindLiability {
      transactionAccount := p.name;
    }
    var transactions := st.txns;
    ghost var st1 := ParserState(st.date, st.description, transactionType, transactionCategory,
                                 transactionAccount, transactionAmount, numPostings, transactions);
    assert st1 == Assign(st.(postings := st.postings + 1, amount := Abs(amount.value)), p.kind, p.name);
    assert AmountText(p) == amountStr;
    PostingStepOf(st, p, amount.value);
    if numPostings == 2 {
      var t := Transaction(st.date, transactionType, AcctOverall, transactionAccount,
                           transactionCategory, transactionAmount, st.description);
      assert t == Emit(st1);
      transactions := transactions + [t];
    }
    return Success(ParserState(st.date, st.description, transactionType, transactionCategory,
                               transactionAccount, transactionAmount, numPostings, transactions));
  }

  /** The body of the loop for one line. */
  method ScanLine(st: ParserState, line: string) returns (r: Result<ParserState>)
    ensures r == Step(st, line)
  {
    if IsSkipLine(line) {
      return Success(st);
    }
    var header := ParseHeader(line);
    if header.Some? {
      var numPostings := 0;
      var parsedDate := ParseIsoDate(header.value.dateText);
      if parsedDate.None? {
        return Failure("failed to parse date " + header.value.dateText);
      }
      return Success(st.(postings := numPostings, date := parsedDate.value, description := header.value.description));
    }
    var posting := ParsePosting(line, 2);
    if posting.Some? {
      r := ReadPosting(st, posting.value);
    } else {
      r := Success(st);
    }
  }

  /** parseJournal's loop, over the same seven variables and the output list. */
  method ParseJournal(lines: seq<string>) returns (r: Result<seq<Transaction>>)
    ensures r == Parse(lines)
  {
    var transactionDate := ZeroDate;
    var transactionDesc := "";
    var transactionType := NoType;
    var transactionCategory := "";
    var transactionAccount := "";
    var transactionAmount := 0.0;
    var numPostings: nat := 0;
    var transactions: seq<Transaction> := [];
    var i := 0;
    while i < |lines|
      invariant 0 <= i <= |lines|
      invariant Run(Initial, lines) ==
                Run(ParserState(transactionDate, transactionDesc, transactionType, transactionCategory,
                                transactionAccount, transactionAmount, numPostings, transactions), lines[i..])
    {
      var st := ParserState(transactionDate, transactionDesc, transactionType, transactionCategory,
                            transactionAccount, transactionAmount, numPostings, transactions);
      RunStep(st, lines, i);
      var next := ScanLine(st, lines[i]);
      if next.Failure? {
        return Failure(next.message);
      }
      transactionDate, transactionDesc := next.value.date, next.value.description;
      transactionType, transactionCategory, transactionAccount := next.value.txnType, next.value.category, next.value.account;
      transactionAmount, numPostings, transactions := next.value.amount, next.value.postings, next.value.txns;
      i := i + 1;
    }
    assert lines[i..] == [];
    return Success(transactions);
  }
}
