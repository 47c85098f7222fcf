/**
 * The line syntax shared by the two hledger journal parsers: comment lines,
 * transaction headers ("2024-01-31  Description") and postings
 * ("    expenses:Food    $-12.50").
 *
 * The two regular expressions of the parsers are replaced by recognisers
 * that return what the leftmost-first match would capture. Lines come from
 * a line scanner and never contain '\n', so '.' is any character here.
 */
module JournalSyntax {
  import opened Wrappers
  import opened Text
  import opened Numeric
  import opened Civil
  import opened Transactions

  /** Empty lines and lines starting with ';' or '#' are skipped. */
  predicate IsSkipLine(line: string) {
    line == "" || line[0] == ';' || line[0] == '#'
  }

  /** The text `\d{4}-\d{2}-\d{2}`. */
  predicate IsIsoDateText(s: string) {
    |s| == 10 && s[4] == '-' && s[7] == '-' &&
    forall i :: 0 <= i < 10 && i != 4 && i != 7 ==> IsAsciiDigit(s[i])
  }

  /** The text after the longest run of leading `\s` characters. */
  function DropRegexSpace(s: string): (r: string)
    ensures |r| <= |s| && r == s[|s| - |r|..]
    ensures forall i :: 0 <= i < |s| - |r| ==> IsRegexSpace(s[i])
    ensures r == [] || !IsRegexSpace(r[0])
  {
    if |s| > 0 && IsRegexSpace(s[0]) then DropRegexSpace(s[1..]) else s
  }

  datatype Header = Header(dateText: string, description: string)

  /**
   * The header pattern `^(\d{4}-\d{2}-\d{2})\s+(.*)$`: a date text, at least
   * one space, and the rest of the line, whose leading spaces the greedy
   * `\s+` takes.
   */
  function ParseHeader(line: string): (r: Option<Header>)
    ensures r.Some? <==> |line| > 10 && IsIsoDateText(line[..10]) && IsRegexSpace(line[10])
    ensures r.Some? ==> IsIsoDateText(r.value.dateText) &&
                        (r.value.description == [] || !IsRegexSpace(r.value.description[0])) &&
                        exists k :: 11 <= k <= |line| && line == r.value.dateText + line[10..k] + r.value.description &&
                                    forall i :: 10 <= i < k ==> IsRegexSpace(line[i])
  {
    if |line| > 10 && IsIsoDateText(line[..10]) && IsRegexSpace(line[10]) then
      HeaderParts(line);
      Some(Header(line[..10], DropRegexSpace(line[10..])))
    else None
  }

  /** The description follows the date and the run of spaces after it. */
  lemma HeaderParts(line: string)
    requires |line| > 10 && IsRegexSpace(line[10])
    ensures var desc := DropRegexSpace(line[10..]);
            exists k :: 11 <= k <= |line| && line == line[..10] + line[10..k] + desc &&
                        forall i :: 10 <= i < k ==> IsRegexSpace(line[i])
  {
    var desc := DropRegexSpace(line[10..]);
    var k := |line| - |desc|;
    assert line == line[..10] + line[10..k] + desc;
    forall i | 10 <= i < k ensures IsRegexSpace(line[i]) {
      assert line[i] == line[10..][i - 10];
    }
  }

  predicate IsDigitOrComma(c: char) {
    IsAsciiDigit(c) || c == ','
  }

  /** The number pattern `[\d,]+\.?\d*`: digits and commas, then an optional '.' followed by digits only. */
  predicate IsLedgerNumber(s: string) {
    |s| >= 1 && IsDigitOrComma(s[0]) &&
    (forall i :: 0 <= i < |s| ==> IsDigitOrComma(s[i]) || s[i] == '.') &&
    (forall i, j :: 0 <= i < j < |s| && s[i] == '.' ==> IsAsciiDigit(s[j]))
  }

  /** An optional '-' and a number. */
  predicate IsSignedLedgerNumber(s: string) {
    if |s| > 0 && s[0] == '-' then IsLedgerNumber(s[1..]) else IsLedgerNumber(s)
  }

  /**
   * The shape of a posting line whose account separator is the ':' at
   * `colon` and whose currency sign is the '$' at `dollar`: a leading space,
   * a non-empty account type, a non-empty name, `gap` spaces, '$' and a
   * signed number ending the line.
   */
  predicate PostingShape(line: string, gap: nat, colon: int, dollar: int) {
    2 <= colon && colon + gap + 1 < dollar < |line| &&
    IsRegexSpace(line[0]) && line[colon] == ':' && line[dollar] == '$' &&
    (forall i :: dollar - gap <= i < dollar ==> IsRegexSpace(line[i])) &&
    IsSignedLedgerNumber(line[dollar + 1..])
  }

  /** The parts of a recognised posting line. */
  datatype Posting = Posting(colon: nat, dollar: nat, kind: string, name: string, negative: bool, number: string)

  /**
   * The posting patterns `^\s+(.+):(.+)\s{G}...\$[-]?([\d,]+\.?\d*)$`, where
   * G is `{2,}` for gap 2 and `{8}` for gap 8. The greedy groups make the
   * '$' the last one of the line and the ':' the last one that leaves a
   * non-empty name; the account type and name are trimmed.
   */
  function ParsePosting(line: string, gap: nat): (r: Option<Posting>)
    ensures Recognised(line, gap, r)
  {
    match LastIndexOf(line, '$')
    case None => None
    case Some(d) =>
      if d < gap + 1 then
        NoShapeWithoutRoom(line, gap, d);
        None
      else
        match LastIndexOf(line[..d - gap - 1], ':')
        case None =>
          NoShapeWithoutColon(line, gap, d);
          None
        case Some(c) =>
          if PostingShape(line, gap, c, d) then
            NoLaterShape(line, gap, c, d);
            Some(PostingAt(line, gap, c, d))
          else
            NoEarlierShape(line, gap, c, d);
            None
  }

  /**
   * What a match of the posting pattern yields: the parts at the shape with
   * the last possible ':', or nothing when the line has no shape at all.
   */
  ghost predicate Recognised(line: string, gap: nat, r: Option<Posting>) {
    match r
    case Some(p) =>
      PostingShape(line, gap, p.colon, p.dollar) &&
      (forall c :: p.colon < c && PostingShape(line, gap, c, p.dollar) ==> false) &&
      p == PostingAt(line, gap, p.colon, p.dollar)
    case None => forall c, d :: !PostingShape(line, gap, c, d)
  }

  /** A posting line starts with a space, so it is never skipped. */
  lemma PostingNotSkipped(line: string, gap: nat)
    requires ParsePosting(line, gap).Some?
    ensures !IsSkipLine(line)
  {
    var p := ParsePosting(line, gap).value;
    assert PostingShape(line, gap, p.colon, p.dollar);
    assert IsRegexSpace(line[0]);
  }

  /** The parts of the posting line of the given shape. */
  function PostingAt(line: string, gap: nat, c: nat, d: nat): (p: Posting)
    requires c + gap + 1 < d < |line| && IsSignedLedgerNumber(line[d + 1..])
    ensures p.colon == c && p.dollar == d
    ensures line[p.dollar + 1..] == (if p.negative then "-" else "") + p.number && IsLedgerNumber(p.number)
  {
    var (negative, number) := SplitSign(line[d + 1..]);
    Posting(c, d, TrimSpace(line[..c]), TrimSpace(line[c + 1..d - gap]), negative, number)
  }

  /** The optional '-' of a signed number and the number after it. */
  function SplitSign(s: string): (r: (bool, string))
    requires IsSignedLedgerNumber(s)
    ensures s == (if r.0 then "-" else "") + r.1 && IsLedgerNumber(r.1)
  {
    if |s| > 0 && s[0] == '-' then
      assert s == "-" + s[1..];
      (true, s[1..])
    else (false, s)
  }

  /** A signed number holds no '$', so the '$' of a posting is the last of the line. */
  lemma ShapeDollarIsLast(line: string, gap: nat, c: int, d: int)
    requires PostingShape(line, gap, c, d)
    ensures forall j :: d < j < |line| ==> line[j] != '$'
  {
    var tail := line[d + 1..];
    forall j | d < j < |line| ensures line[j] != '$' {
      assert line[j] == tail[j - d - 1];
      if |tail| > 0 && tail[0] == '-' {
        if j > d + 1 {
          assert line[j] == tail[1..][j - d - 2];
        }
      }
    }
  }

  lemma NoShapeWithoutRoom(line: string, gap: nat, d: nat)
    requires d < |line| && line[d] == '$' && forall j :: d < j < |line| ==> line[j] != '$'
    requires d < gap + 1
    ensures forall c, e :: !PostingShape(line, gap, c, e)
  {
    forall c, e | PostingShape(line, gap, c, e) ensures false {
      ShapeDollarIsLast(line, gap, c, e);
    }
  }

  lemma NoShapeWithoutColon(line: string, gap: nat, d: nat)
    requires d < |line| && line[d] == '$' && forall j :: d < j < |line| ==> line[j] != '$'
    requires gap + 1 <= d && forall j :: 0 <= j < d - gap - 1 ==> line[j] != ':'
    ensures forall c, e :: !PostingShape(line, gap, c, e)
  {
    forall c, e | PostingShape(line, gap, c, e) ensures false {
      ShapeDollarIsLast(line, gap, c, e);
    }
  }

  lemma NoLaterShape(line: string, gap: nat, c: nat, d: nat)
    requires gap + 1 <= d < |line| && c < d - gap - 1
    requires forall j :: c < j < d - gap - 1 ==> line[j] != ':'
    ensures forall c' :: c < c' && PostingShape(line, gap, c', d) ==> false
  {
  }

  lemma NoEarlierShape(line: string, gap: nat, c: nat, d: nat)
    requires d < |line| && line[d] == '$' && forall j :: d < j < |line| ==> line[j] != '$'
    requires gap + 1 <= d && c < d - gap - 1 && line[c] == ':'
    requires forall j :: c < j < d - gap - 1 ==> line[j] != ':'
    requires !PostingShape(line, gap, c, d)
    ensures forall c', e :: !PostingShape(line, gap, c', e)
  {
    forall c', e | PostingShape(line, gap, c', e) ensures false {
      ShapeDollarIsLast(line, gap, c', e);
    }
  }

  /** The account types of a posting that set fields of the transaction. */
  const KindAssets := "assets"
  const KindLiability := "liability"
  const KindExpenses := "expenses"
  const KindIncome := "income"

  /** The variables of the line loop: the fields collected so far, the posting count and the output. */
  datatype ParserState = ParserState(
    date: Date, description: string, txnType: TxnType, category: string, account: string,
    amount: real, postings: nat, txns: seq<Transaction>)

  const Initial := ParserState(ZeroDate, "", NoType, "", "", 0.0, 0, [])

  /**
   * The effect of a posting's account type: "expenses" and "income" set the
   * transaction type and the category, "assets" and "liability" the account,
   * and any other account type nothing.
   */
  function Assign(st: ParserState, kind: string, name: string): (r: ParserState)
    ensures r.date == st.date && r.description == st.description && r.amount == st.amount
    ensures r.postings == st.postings && r.txns == st.txns
    ensures kind == KindExpenses ==> r.txnType == Expense && r.category == name && r.account == st.account
    ensures kind == KindIncome ==> r.txnType == Income && r.category == name && r.account == st.account
    ensures kind == KindAssets || kind == KindLiability ==> r.txnType == st.txnType && r.category == st.category && r.account == name
    ensures kind !in {KindExpenses, KindIncome, KindAssets, KindLiability} ==> r == st
  {
    if kind == KindExpenses then st.(txnType := Expense, category := name)
    else if kind == KindIncome then st.(txnType := Income, category := name)
    else if kind == KindAssets || kind == KindLiability then st.(account := name)
    else st
  }

  /** The transaction the collected fields make; the account type is never set. */
  function Emit(st: ParserState): (t: Transaction)
    ensures t.accountType == AcctOverall && t.amount == st.amount
  {
    Transaction(st.date, st.txnType, AcctOverall, st.account, st.category, st.amount, st.description)
  }

  /** math.Abs */
  function Abs(x: real): (r: real)
    ensures r >= 0.0 && (r == x || r == -x)
  {
    if x < 0.0 then -x else x
  }

  predicate HasDigit(s: string) {
    exists i :: 0 <= i < |s| && IsAsciiDigit(s[i])
  }

  /** Digits with at most one '.', which only digits follow. */
  predicate IsPlainNumber(n: string) {
    (forall i :: 0 <= i < |n| ==> IsAsciiDigit(n[i]) || n[i] == '.') &&
    (forall i, j :: 0 <= i < j < |n| && n[i] == '.' ==> IsAsciiDigit(n[j]))
  }

  /** Removing the commas of digits, commas and a '.' followed by digits leaves a plain number with the same digits. */
  lemma RemoveCommas(s: string)
    requires forall i :: 0 <= i < |s| ==> IsDigitOrComma(s[i]) || s[i] == '.'
    requires forall i, j :: 0 <= i < j < |s| && s[i] == '.' ==> IsAsciiDigit(s[j])
    ensures IsPlainNumber(RemoveChar(s, ','))
    ensures HasDigit(RemoveChar(s, ',')) <==> HasDigit(s)
  {
    RemoveCommasPlain(s);
    RemoveCommasDigits(s);
  }

  lemma {:induction false} RemoveCommasPlain(s: string)
    requires forall i :: 0 <= i < |s| ==> IsDigitOrComma(s[i]) || s[i] == '.'
    requires forall i, j :: 0 <= i < j < |s| && s[i] == '.' ==> IsAsciiDigit(s[j])
    ensures IsPlainNumber(RemoveChar(s, ','))
  {
    if s != [] {
      assert forall i :: 0 <= i < |s| - 1 ==> s[1..][i] == s[i + 1];
      RemoveCommasPlain(s[1..]);
      var rest := RemoveChar(s[1..], ',');
      if s[0] != ',' {
        var n := [s[0]] + rest;
        assert RemoveChar(s, ',') == n;
        if s[0] == '.' {
          forall j | 0 <= j < |rest| ensures IsAsciiDigit(rest[j]) {
            RemoveCharFrom(s[1..], ',', j);
          }
        }
        assert forall j :: 1 <= j < |n| ==> n[j] == rest[j - 1];
      }
    }
  }

  /** HasDigit of a non-empty text: its first character or the rest. */
  lemma HasDigitCons(s: string)
    requires s != []
    ensures HasDigit(s) <==> IsAsciiDigit(s[0]) || HasDigit(s[1..])
  {
    if HasDigit(s[1..]) {
      var i :| 0 <= i < |s[1..]| && IsAsciiDigit(s[1..][i]);
      assert IsAsciiDigit(s[i + 1]);
    }
    if HasDigit(s) && !IsAsciiDigit(s[0]) {
      var i :| 0 <= i < |s| && IsAsciiDigit(s[i]);
      assert IsAsciiDigit(s[1..][i - 1]);
    }
  }

  lemma {:induction false} RemoveCommasDigits(s: string)
    ensures HasDigit(RemoveChar(s, ',')) <==> HasDigit(s)
  {
    if s != [] {
      RemoveCommasDigits(s[1..]);
      HasDigitCons(s);
      var rest := RemoveChar(s[1..], ',');
      if s[0] != ',' {
        var n := [s[0]] + rest;
        assert RemoveChar(s, ',') == n;
        HasDigitCons(n);
        assert n[1..] == rest;
      }
    }
  }

  /** A plain number parses exactly when it has a digit, and to a value that is not negative. */
  lemma PlainNumberParses(n: string)
    requires IsPlainNumber(n)
    ensures ParseDecimal(n).Some? <==> HasDigit(n)
    ensures ParseDecimal(n).Some? ==> ParseDecimal(n).value >= 0.0
  {
    assert n == [] || (n[0] != '-' && n[0] != '+');
    assert ParseDecimal(n) == ParseUnsigned(n);
    PlainUnsigned(n);
  }

  /** The unsigned reading of a plain number: it succeeds exactly when there is a digit. */
  lemma PlainUnsigned(n: string)
    requires IsPlainNumber(n)
    ensures ParseUnsigned(n).Some? <==> HasDigit(n)
    ensures ParseUnsigned(n).Some? ==> ParseUnsigned(n).value >= 0.0
  {
    match FirstIndexOf(n, '.')
    case None =>
      assert AllDigits(n);
      if HasDigit(n) {
        assert |n| >= 1;
      }
    case Some(k) =>
      assert AllDigits(n[..k]);
      assert AllDigits(n[k + 1..]);
      if HasDigit(n) {
        var i :| 0 <= i < |n| && IsAsciiDigit(n[i]);
        assert i != k;
      }
  }

  /**
   * The number of a posting, with its commas removed, is one that
   * strconv.ParseFloat reads exactly when it holds a digit, and its value is
   * not negative (the sign lies outside the number).
   */
  lemma LedgerNumberParses(s: string)
    requires IsLedgerNumber(s)
    ensures ParseDecimal(RemoveChar(s, ',')).Some? <==> HasDigit(s)
    ensures ParseDecimal(RemoveChar(s, ',')).Some? ==> ParseDecimal(RemoveChar(s, ',')).value >= 0.0
  {
    RemoveCommas(s);
    PlainNumberParses(RemoveChar(s, ','));
  }
}
