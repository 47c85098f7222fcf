/**
 * The older hledger journal parser of the data package. Its line loop is
 * that of the ledger parser with three differences: a posting needs exactly
 * eight spaces before its amount, the '$' and the sign belong to the parsed
 * number, and the posting count is reset after each emit instead of at each
 * header, so every second posting line of the file emits a transaction.
 */
module JournalParser {
  import opened Wrappers
  import opened Text
  import opened Numeric
  import opened Civil
  import opened Transactions
  import opened JournalSyntax

  /** The third group of the posting pattern: '$', the sign and the number. */
  function AmountGroup(p: Posting): string {
    "$" + (if p.negative then "-" else "") + p.number
  }

  /** The text strconv.ParseFloat receives: the group without commas or '$'. */
  function AmountText(p: Posting): string {
    RemoveChar(RemoveChar(AmountGroup(p), ','), '$')
  }

  /** The effect of one line on the loop variables, or the error that ends the loop. */
  function Step(st: ParserState, line: string): Result<ParserState> {
    if IsSkipLine(line) then Success(st)
    else match ParseHeader(line)
    case Some(h) => HeaderStep(st, h)
    case None =>
      match ParsePosting(line, 8)
      case None => Success(st)
      case Some(p) => PostingStep(st, p)
  }

  /** A header sets the date and the description; the posting count is kept. */
  function HeaderStep(st: ParserState, h: Header): Result<ParserState> {
    match ParseIsoDate(h.dateText)
    case None => Failure("failed to parse date " + h.dateText)
    case Some(d) => Success(st.(date := d, description := h.description))
  }

  /** A posting counts, sets the amount and its field, and on reaching two emits and resets the count. */
  function PostingStep(st: ParserState, p: Posting): Result<ParserState> {
    match ParseDecimal(AmountText(p))
    case None => Failure("failed to parse amount " + AmountText(p))
    case Some(v) =>
      var st1 := Assign(st.(postings := st.postings + 1, amount := Abs(v)), p.kind, p.name);
      Success(if st1.postings == 2 then st1.(txns := st1.txns + [Emit(st1)], postings := 0) else st1)
  }

  lemma PostingStepOf(st: ParserState, p: Posting, v: real)
    requires ParseDecimal(AmountText(p)) == Some(v)
    ensures var st1 := Assign(st.(postings := st.postings + 1, amount := Abs(v)), p.kind, p.name);
            PostingStep(st, p) == Success(if st1.postings == 2 then st1.(txns := st1.txns + [Emit(st1)], postings := 0) else st1)
  {
  }

  /** The loop from state `st` over `lines`. */
  function Run(st: ParserState, lines: seq<string>): Result<ParserState>
    decreases |lines|
  {
    if lines == [] then Success(st)
    else
      var next :- Step(st, lines[0]);
      Run(next, lines[1..])
  }

  /** ParseJournal over the lines of the file: its transactions, or the first error. */
  function Parse(lines: seq<string>): Result<seq<Transaction>> {
    var st :- Run(Initial, lines);
    Success(st.txns)
  }

  lemma RunStep(st: ParserState, lines: seq<string>, i: nat)
    requires i < |lines|
    ensures Run(st, lines[i..]) ==
            match Step(st, lines[i])
            case Failure(e) => Failure(e)
            case Success(next) => Run(next, lines[i + 1..])
  {
    assert lines[i..][0] == lines[i] && lines[i..][1..] == lines[i + 1..];
  }

  // Properties of the line loop

  /** Empty and comment lines leave every variable as it is. */
  lemma SkipLine(st: ParserState, line: string)
    requires IsSkipLine(line)
    ensures Step(st, line) == Success(st)
  {
  }

  /** A header sets the date and the description and keeps the posting count, or fails when its date does not exist. */
  lemma HeaderLine(st: ParserState, line: string)
    requires ParseHeader(line).Some?
    ensures var h := ParseHeader(line).value;
            var r := Step(st, line);
            (r.Success? <==> ParseIsoDate(h.dateText).Some?) &&
            (r.Success? ==> r.value == st.(date := ParseIsoDate(h.dateText).value, description := h.description))
  {
    assert line[0] != ';' && line[0] != '#' by {
      assert IsAsciiDigit(line[..10][0]);
    }
  }

  /** A line that is a posting and no header is read as that posting. */
  lemma PostingLine(st: ParserState, line: string, p: Posting)
    requires ParseHeader(line).None? && ParsePosting(line, 8) == Some(p)
    ensures Step(st, line) == PostingStep(st, p)
  {
    PostingNotSkipped(line, 8);
  }

  /** With '$' and the commas removed, the amount group is the signed number. */
  lemma AmountTextOf(p: Posting)
    requires IsLedgerNumber(p.number)
    ensures AmountText(p) == (if p.negative then "-" else "") + RemoveChar(p.number, ',')
  {
    var sign := if p.negative then "-" else "";
    var n := RemoveChar(p.number, ',');
    assert AmountGroup(p) == ("$" + sign) + p.number;
    RemoveCharAppend("$" + sign, p.number, ',');
    RemoveCharAbsent("$" + sign, ',');
    assert RemoveChar(AmountGroup(p), ',') == "$" + (sign + n);
    RemoveCharAppend("$", sign + n, '$');
    RemoveCharAppend(sign, n, '$');
    RemoveCharAbsent(sign, '$');
    RemoveCommas(p.number);
    RemoveCharAbsent(n, '$');
  }

  /**
   * The amount: the signed number is read, and its absolute value is the
   * value of the number without its sign.
   */
  lemma PostingAmount(p: Posting)
    requires IsLedgerNumber(p.number)
    ensures ParseDecimal(AmountText(p)).Some? <==> HasDigit(p.number)
    ensures ParseDecimal(AmountText(p)).Some? ==>
              ParseDecimal(RemoveChar(p.number, ',')) == Some(Abs(ParseDecimal(AmountText(p)).value))
  {
    var n := RemoveChar(p.number, ',');
    AmountTextOf(p);
    RemoveCommas(p.number);
    LedgerNumberParses(p.number);
    SignedAmount(p.negative, n);
  }

  /** An optional '-' before an unsigned numeral changes the value read by its sign only. */
  lemma SignedAmount(negative: bool, n: string)
    requires n == [] || (n[0] != '-' && n[0] != '+')
    requires ParseDecimal(n).Some? ==> ParseDecimal(n).value >= 0.0
    ensures var s := (if negative then "-" else "") + n;
            (ParseDecimal(s).Some? <==> ParseDecimal(n).Some?) &&
            (ParseDecimal(s).Some? ==> ParseDecimal(n) == Some(Abs(ParseDecimal(s).value)))
  {
    var s := (if negative then "-" else "") + n;
    if negative {
      assert s == "-" + n;
      ParseNegated(n);
      if ParseDecimal(s).Some? {
        assert ParseDecimal(s).value == -ParseDecimal(n).value;
      }
    } else {
      assert s == n;
    }
  }

  /**
   * A posting fails only when its number has no digit. Otherwise it counts
   * one more posting, stores the value of the number without its sign as
   * the amount and sets the field its account type names; on the second
   * posting it appends the transaction and resets the count.
   */
  lemma PostingEffect(st: ParserState, p: Posting)
    requires IsLedgerNumber(p.number)
    ensures PostingStep(st, p).Success? <==> HasDigit(p.number)
    ensures PostingStep(st, p).Success? ==>
            var r := PostingStep(st, p).value;
            var a := Assign(st, p.kind, p.name);
            ParseDecimal(RemoveChar(p.number, ',')) == Some(r.amount) && r.amount >= 0.0 &&
            r.date == st.date && r.description == st.description &&
            r.txnType == a.txnType && r.category == a.category && r.account == a.account &&
            (st.postings + 1 == 2 ==> r.postings == 0 && r.txns == st.txns + [Emit(r)]) &&
            (st.postings + 1 != 2 ==> r.postings == st.postings + 1 && r.txns == st.txns)
  {
    PostingAmount(p);
    LedgerNumberParses(p.number);
    if HasDigit(p.number) {
      PostingStepOf(st, p, ParseDecimal(AmountText(p)).value);
    }
  }

  /** A line the loop reads as a posting. */
  predicate IsPostingLine(line: string) {
    !IsSkipLine(line) && ParseHeader(line).None? && ParsePosting(line, 8).Some?
  }

  /** The number of posting lines. */
  function Postings(lines: seq<string>): nat {
    if lines == [] then 0
    else (if IsPostingLine(lines[0]) then 1 else 0) + Postings(lines[1..])
  }

  /**
   * What the loop keeps true: the output holds one transaction per two
   * posting lines read, the count holds the odd one out, and every
   * transaction has no account type and a non-negative amount.
   */
  predicate Invariant(st: ParserState, postings: nat) {
    st.amount >= 0.0 &&
    (forall t :: t in st.txns ==> t.accountType == AcctOverall && t.amount >= 0.0) &&
    st.postings < 2 && postings == 2 * |st.txns| + st.postings
  }

  lemma PostingsOne(line: string)
    ensures Postings([line]) == if IsPostingLine(line) then 1 else 0
  {
    assert [line][1..] == [];
  }

  lemma PostingInvariant(st: ParserState, p: Posting, n: nat)
    requires Invariant(st, n) && IsLedgerNumber(p.number) && PostingStep(st, p).Success?
    ensures Invariant(PostingStep(st, p).value, n + 1)
  {
    PostingEffect(st, p);
  }

  lemma StepInvariant(st: ParserState, line: string, n: nat)
    requires Invariant(st, n) && Step(st, line).Success?
    ensures Invariant(Step(st, line).value, n + Postings([line]))
  {
    PostingsOne(line);
    if IsPostingLine(line) {
      PostingLine(st, line, ParsePosting(line, 8).value);
      PostingInvariant(st, ParsePosting(line, 8).value, n);
    } else if !IsSkipLine(line) && ParseHeader(line).Some? {
      HeaderLine(st, line);
    }
  }

  lemma {:induction false} RunInvariant(st: ParserState, lines: seq<string>, n: nat)
    requires Invariant(st, n) && Run(st, lines).Success?
    ensures Invariant(Run(st, lines).value, n + Postings(lines))
    decreases |lines|
  {
    if lines != [] {
      StepInvariant(st, lines[0], n);
      assert Postings(lines) == Postings([lines[0]]) + Postings(lines[1..]) by {
        assert [lines[0]][1..] == [];
      }
      RunInvariant(Step(st, lines[0]).value, lines[1..], n + Postings([lines[0]]));
    }
  }

  /**
   * Transactions are emitted on every second posting line of the file,
   * whatever headers lie between: there are half as many as posting lines.
   */
  lemma ParseResult(lines: seq<string>)
    requires Parse(lines).Success?
    ensures |Parse(lines).value| == Postings(lines) / 2
    ensures forall t :: t in Parse(lines).value ==> t.accountType == AcctOverall && t.amount >= 0.0
  {
    RunInvariant(Initial, lines, 0);
  }

  /** A header whose date does not exist makes the whole file an error, with no transactions. */
  lemma {:induction false} BadDateFails(st: ParserState, lines: seq<string>, i: nat)
    requires i < |lines| && ParseHeader(lines[i]).Some? && ParseIsoDate(ParseHeader(lines[i]).value.dateText).None?
    ensures Run(st, lines).Failure?
    decreases i
  {
    if i == 0 {
      HeaderLine(st, lines[0]);
    } else if Step(st, lines[0]).Success? {
      BadDateFails(Step(st, lines[0]).value, lines[1..], i - 1);
    }
  }

  /** A posting whose number has no digit is an error. */
  lemma BadAmountLine(st: ParserState, line: string)
    requires IsPostingLine(line) && !HasDigit(ParsePosting(line, 8).value.number)
    ensures Step(st, line).Failure?
  {
    PostingLine(st, line, ParsePosting(line, 8).value);
    PostingEffect(st, ParsePosting(line, 8).value);
  }

  /** A posting whose number has no digit makes the whole file an error. */
  lemma BadAmountFails(st: ParserState, lines: seq<string>, i: nat)
    requires i < |lines| && IsPostingLine(lines[i]) && !HasDigit(ParsePosting(lines[i], 8).value.number)
    ensures Run(st, lines).Failure?
  {
    forall s: ParserState
      ensures Step(s, lines[i]).Failure?
    {
      BadAmountLine(s, lines[i]);
    }
    FailingLine(st, lines, i);
  }

  /** A line that fails in every state makes the whole file an error. */
  lemma {:induction false} FailingLine(st: ParserState, lines: seq<string>, i: nat)
    requires i < |lines| && forall s: ParserState :: Step(s, lines[i]).Failure?
    ensures Run(st, lines).Failure?
    decreases i
  {
    if i > 0 && Step(st, lines[0]).Success? {
      assert lines[1..][i - 1] == lines[i];
      FailingLine(Step(st, lines[0]).value, lines[1..], i - 1);
    }
  }

  /**
   * The body of the loop for a posting line: count it, parse its amount,
   * set the field its account type names, and emit and reset the count on
   * the second posting.
   */
  method ReadPosting(st: ParserState, p: Posting) returns (r: Result<ParserState>)
    ensures r == PostingStep(st, p)
  {
    var transactionLines := st.postings + 1;
    var amountStr := RemoveChar(RemoveChar(AmountGroup(p), ','), '$');
    var amount := ParseDecimal(amountStr);
    if amount.None? {
      return Failure("failed to parse amount " + amountStr);
    }
    var transactionAmount := Abs(amount.value);
    var transactionType, transactionCategory, transactionAccount := st.txnType, st.category, st.account;
    if p.kind == KindExpenses {
      transactionType := Expense;
      transactionCategory := p.name;
    } else if p.kind == KindIncome {
      transactionType := Income;
      transactionCategory := p.name;
    } else if p.kind == KindAssets || p.kind == KindLiability {
      transactionAccount := p.name;
    }
    var transactions := st.txns;
    ghost var st1 := ParserState(st.date, st.description, transactionType, transactionCategory,
                                 transactionAccount, transactionAmount, transactionLines, transactions);
    assert st1 == Assign(st.(postings := st.postings + 1, amount := Abs(amount.value)), p.kind, p.name);
    assert AmountText(p) == amountStr;
    PostingStepOf(st, p, amount.value);
    if transactionLines == 2 {
      var t := Transaction(st.date, transactionType, AcctOverall, transactionAccount,
                           transactionCategory, transactionAmount, st.description);
      assert t == Emit(st1);
      transactions := transactions + [t];
      transactionLines := 0;
    }
    return Success(ParserState(st.date, st.description, transactionType, transactionCategory,
                               transactionAccount, transactionAmount, transactionLines, transactions));
  }

  /** The body of the loop for one line. */
  method ScanLine(st: ParserState, line: string) returns (r: Result<ParserState>)
    ensures r == Step(st, line)
  {
    if IsSkipLine(line) {
      return Success(st);
    }
    var header := ParseHeader(line);
    if header.Some? {
      var parsedDate := ParseIsoDate(header.value.dateText);
      if parsedDate.None? {
        return Failure("failed to parse date " + header.value.dateText);
      }
      return Success(st.(date := parsedDate.value, description := header.value.description));
    }
    var posting := ParsePosting(line, 8);
    if posting.Some? {
      r := ReadPosting(st, posting.value);
    } else {
      r := Success(st);
    }
  }

  /** ParseJournal's loop over the lines of the file, with its seven variables and output list. */
  method ParseJournal(lines: seq<string>) returns (r: Result<seq<Transaction>>)
    ensures r == Parse(lines)
  {
    var transactionDate := ZeroDate;
    var transactionDesc := "";
    var transactionType := NoType;
    var transactionCategory := "";
    var transactionAccount := "";
    var transactionAmount := 0.0;
    var transactionLines: nat := 0;
    var transactions: seq<Transaction> := [];
    var i := 0;
    while i < |lines|
      invariant 0 <= i <= |lines|
      invariant Run(Initial, lines) ==
                Run(ParserState(transactionDate, transactionDesc, transactionType, transactionCategory,
                                transactionAccount, transactionAmount, transactionLines, transactions), lines[i..])
    {
      var st := ParserState(transactionDate, transactionDesc, transactionType, transactionCategory,
                            transactionAccount, transactionAmount, transactionLines, transactions);
      RunStep(st, lines, i);
      var next := ScanLine(st, lines[i]);
      if next.Failure? {
        return Failure(next.message);
      }
      transactionDate, transactionDesc := next.value.date, next.value.description;
      transactionType, transactionCategory, transactionAccount := next.value.txnType, next.value.category, next.value.account;
      transactionAmount, transactionLines, transactions := next.value.amount, next.value.postings, next.value.txns;
      i := i + 1;
    }
    assert lines[i..] == [];
    return Success(transactions);
  }
}
