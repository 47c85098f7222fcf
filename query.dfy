/**
 * Search keywords: how one transaction is matched against the keywords of a
 * query. A keyword may be negated with a leading '-', restricted to one field
 * with a prefix ("d:", "t:", "a:", "c:", "m:", "p:"), and date and amount
 * keywords may carry a '<' or '>' comparison.
 */
module Query {
  import opened Wrappers
  import opened Text
  import opened Numeric
  import opened Civil
  import opened Transactions

  /** strings.CutPrefix: the rest of `s` after `prefix`, when `s` starts with it. */
  function CutPrefix(s: string, prefix: string): (r: Option<string>)
    ensures r.Some? <==> |prefix| <= |s| && s[..|prefix|] == prefix
    ensures r.Some? ==> s == prefix + r.value
  {
    if |prefix| <= |s| && s[..|prefix|] == prefix then
      assert s == prefix + s[|prefix|..];
      Some(s[|prefix|..])
    else None
  }

  lemma CutPrefixOf(prefix: string, rest: string)
    ensures CutPrefix(prefix + rest, prefix) == Some(rest)
  {
    assert (prefix + rest)[..|prefix|] == prefix;
  }

  /** The comparison operator of a date or amount keyword. */
  datatype Op = NoOp | Larger | Smaller

  function OpText(op: Op): string {
    match op
    case NoOp => ""
    case Larger => ">"
    case Smaller => "<"
  }

  predicate IsOpChar(c: char) {
    c == '<' || c == '>'
  }

  function OpOfChar(c: char): (op: Op)
    requires IsOpChar(c)
    ensures OpText(op) == [c]
  {
    if c == '>' then Larger else Smaller
  }

  // Date keywords

  /** The text `\d{4}(-\d{2}(-\d{2})?)?`: a year, a year and month, or a full date. */
  predicate IsDateText(s: string) {
    (|s| == 4 || |s| == 7 || |s| == 10) &&
    (forall i :: 0 <= i < |s| && i != 4 && i != 7 ==> IsAsciiDigit(s[i])) &&
    (|s| > 4 ==> s[4] == '-') && (|s| > 7 ==> s[7] == '-')
  }

  /**
   * The match of the whole keyword against an optional operator and a date
   * text; a keyword of any other shape yields no operator and no text.
   */
  function ParseDateKeyword(kw: string): (r: (Op, string))
    ensures r.1 != "" ==> IsDateText(r.1) && OpText(r.0) + r.1 == kw
    ensures r.1 == "" ==> r.0 == NoOp && !IsDateText(kw) &&
                          !(|kw| > 0 && IsOpChar(kw[0]) && IsDateText(kw[1..]))
  {
    if |kw| > 0 && IsOpChar(kw[0]) && IsDateText(kw[1..]) then
      assert kw == [kw[0]] + kw[1..];
      (OpOfChar(kw[0]), kw[1..])
    else if IsDateText(kw) then (NoOp, kw)
    else (NoOp, "")
  }

  /** A keyword made of an operator and a date text is read back as that pair. */
  lemma ParseDateKeywordOf(op: Op, ds: string)
    requires IsDateText(ds)
    ensures ParseDateKeyword(OpText(op) + ds) == (op, ds)
  {
    var kw := OpText(op) + ds;
    if op != NoOp {
      assert kw[0] == OpText(op)[0] && kw[1..] == ds;
    } else {
      assert kw == ds && IsAsciiDigit(ds[0]);
    }
  }

  /** The search dates accept the layouts "2006-01-02", "2006-01" and "2006", tried in that order. */
  const DateLayouts: seq<Layout> := [IsoDate, YearMonth, YearOnly]

  function ParseDate(ds: string): Option<Date> {
    ParseFirst(DateLayouts, ds)
  }

  /** The year, month and day a date text spells, the missing parts being 1. */
  function DateTextParts(ds: string): (int, int, int)
    requires IsDateText(ds)
  {
    (NatOf(ds[..4]),
     if |ds| >= 7 then NatOf(ds[5..7]) else 1,
     if |ds| == 10 then NatOf(ds[8..10]) else 1)
  }

  /**
   * A date text parses exactly when the month and day it spells exist, and
   * then to that date: the layout that applies is the one of its length.
   */
  lemma ParseDateText(ds: string)
    requires IsDateText(ds)
    ensures var (y, m, d) := DateTextParts(ds);
            ParseDate(ds) == MakeDate(y, m, d)
  {
    var y := ds[..4];
    assert AllDigits(y);
    assert ParseYear(ds) == (if |ds| == 4 then MakeDate(NatOf(y), 1, 1) else None);
    assert DateLayouts[1..] == [YearMonth, YearOnly] && [YearMonth, YearOnly][1..] == [YearOnly];
    assert ParseFirst([YearOnly], ds) == ParseYear(ds) by {
      assert [YearOnly][1..] == [];
    }
    assert ParseFirst([YearMonth, YearOnly], ds) ==
           if ParseYearMonth(ds).Some? then ParseYearMonth(ds) else ParseYear(ds);
    assert ParseDate(ds) ==
           if ParseIsoDate(ds).Some? then ParseIsoDate(ds) else ParseFirst([YearMonth, YearOnly], ds);
    if |ds| == 10 {
      assert AllDigits(ds[5..7]) && AllDigits(ds[8..10]);
    } else if |ds| == 7 {
      assert AllDigits(ds[5..7]);
    }
  }

  /**
   * A date keyword: without an operator, a substring of the transaction's
   * "2006-01-02" date; with one, a strict comparison with the parsed date.
   */
  function MatchesDate(t: Transaction, kw: string): bool {
    var (op, ds) := ParseDateKeyword(kw);
    if op == NoOp then
      ds != "" && Contains(FormatIsoDate(t.date), ds)
    else
      match ParseDate(ds)
      case None => false
      case Some(d) => if op == Larger then After(t.date, d) else Before(t.date, d)
  }

  /** Operator keywords compare strictly: the date itself is neither after nor before itself. */
  lemma DateComparison(t: Transaction, ds: string)
    requires IsDateText(ds)
    ensures MatchesDate(t, ">" + ds) <==> ParseDate(ds).Some? && After(t.date, ParseDate(ds).value)
    ensures MatchesDate(t, "<" + ds) <==> ParseDate(ds).Some? && Before(t.date, ParseDate(ds).value)
    ensures ParseDate(ds) == Some(t.date) ==> !MatchesDate(t, ">" + ds) && !MatchesDate(t, "<" + ds)
  {
    ParseDateKeywordOf(Larger, ds);
    ParseDateKeywordOf(Smaller, ds);
  }

  /** A keyword that is not a date text, with or without an operator, matches no date. */
  lemma MalformedDateNeverMatches(t: Transaction, kw: string)
    requires !IsDateText(kw) && !(|kw| > 0 && IsOpChar(kw[0]) && IsDateText(kw[1..]))
    ensures !MatchesDate(t, kw)
  {
  }

  // Amount keywords

  /** The text `[0-9]*\.?[0-9]+`: digits with at most one '.', ending in a digit. */
  predicate IsAmountText(s: string) {
    |s| >= 1 && IsAsciiDigit(s[|s| - 1]) &&
    (forall i :: 0 <= i < |s| ==> IsAsciiDigit(s[i]) || s[i] == '.') &&
    (forall i, j :: 0 <= i < j < |s| && s[i] == '.' ==> s[j] != '.')
  }

  /**
   * The match of the whole keyword against an optional operator followed by
   * an optional amount text; a keyword of any other shape yields no operator
   * and no text.
   */
  function ParseAmountKeyword(kw: string): (r: (Op, string))
    ensures r.1 != "" ==> IsAmountText(r.1) && OpText(r.0) + r.1 == kw
    ensures r.1 == "" && r.0 != NoOp ==> kw == OpText(r.0)
    ensures r == (NoOp, "") ==>
              (kw == "" || (!IsAmountText(kw) && !(IsOpChar(kw[0]) && (|kw| == 1 || IsAmountText(kw[1..])))))
  {
    if |kw| > 0 && IsOpChar(kw[0]) && (|kw| == 1 || IsAmountText(kw[1..])) then
      assert kw == [kw[0]] + kw[1..];
      (OpOfChar(kw[0]), kw[1..])
    else if IsAmountText(kw) then (NoOp, kw)
    else (NoOp, "")
  }

  /** A keyword made of an operator and an amount text is read back as that pair. */
  lemma ParseAmountKeywordOf(op: Op, n: string)
    requires IsAmountText(n) || (op != NoOp && n == "")
    ensures ParseAmountKeyword(OpText(op) + n) == (op, n)
  {
    var kw := OpText(op) + n;
    if op != NoOp {
      assert kw[0] == OpText(op)[0] && kw[1..] == n;
    } else {
      assert kw == n && !IsOpChar(n[0]);
    }
  }

  /** Every amount text is a decimal numeral strconv.ParseFloat accepts. */
  lemma AmountTextParses(n: string)
    requires IsAmountText(n)
    ensures ParseDecimal(n).Some?
  {
    match FirstIndexOf(n, '.')
    case None =>
      assert AllDigits(n);
    case Some(k) =>
      assert AllDigits(n[..k]);
      assert k < |n| - 1;
      assert AllDigits(n[k + 1..]);
  }

  /** strconv.ParseFloat with its error ignored: zero when the text does not parse. */
  function AmountOrZero(n: string): real {
    match ParseDecimal(n)
    case Some(v) => v
    case None => 0.0
  }

  /**
   * An amount keyword: without an operator, a substring of the amount
   * written with two decimals; with one, a strict comparison.
   */
  function MatchesAmount(t: Transaction, kw: string): bool {
    var (op, n) := ParseAmountKeyword(kw);
    if op == NoOp then
      n != "" && Contains(TwoDecimals(t.amount), n)
    else
      var target := AmountOrZero(n);
      if op == Larger then t.amount > target else t.amount < target
  }

  /** Operator keywords compare strictly against the value of the amount text. */
  lemma AmountComparison(t: Transaction, n: string)
    requires IsAmountText(n)
    ensures ParseDecimal(n).Some?
    ensures MatchesAmount(t, ">" + n) <==> t.amount > ParseDecimal(n).value
    ensures MatchesAmount(t, "<" + n) <==> t.amount < ParseDecimal(n).value
  {
    AmountTextParses(n);
    ParseAmountKeywordOf(Larger, n);
    ParseAmountKeywordOf(Smaller, n);
  }

  /** A bare operator compares with zero, the value of an unparsed number. */
  lemma BareAmountOperator(t: Transaction)
    ensures MatchesAmount(t, ">") <==> t.amount > 0.0
    ensures MatchesAmount(t, "<") <==> t.amount < 0.0
  {
    assert ParseDecimal("") == None;
    ParseAmountKeywordOf(Larger, "");
    ParseAmountKeywordOf(Smaller, "");
  }

  /** A keyword that is no amount text, with or without an operator, matches no amount. */
  lemma MalformedAmountNeverMatches(t: Transaction, kw: string)
    requires !IsAmountText(kw) && !(|kw| > 0 && IsOpChar(kw[0]) && (|kw| == 1 || IsAmountText(kw[1..])))
    ensures !MatchesAmount(t, kw)
  {
  }

  // Text keywords

  function MatchesType(t: Transaction, kw: string): bool {
    Contains(ToLower(TypeName(t.txnType)), kw)
  }

  function MatchesAccount(t: Transaction, kw: string): bool {
    Contains(ToLower(t.account), kw)
  }

  function MatchesCategory(t: Transaction, kw: string): bool {
    Contains(ToLower(t.category), kw)
  }

  function MatchesDescription(t: Transaction, kw: string): bool {
    Contains(ToLower(t.description), kw)
  }

  /** Fields are compared in lower case, so a keyword with an upper-case letter never matches them. */
  lemma UpperCaseNeverMatches(t: Transaction, kw: string)
    requires !IsLower(kw)
    ensures !MatchesType(t, kw) && !MatchesAccount(t, kw)
    ensures !MatchesCategory(t, kw) && !MatchesDescription(t, kw)
  {
    forall s: string ensures !Contains(ToLower(s), kw) {
      ToLowerIsLower(s);
      if Contains(ToLower(s), kw) {
        ContainsLower(ToLower(s), kw);
      }
    }
  }

  /** The empty keyword is contained in every text field. */
  lemma EmptyKeywordMatches(t: Transaction)
    ensures MatchesType(t, "") && MatchesDescription(t, "")
  {
    ContainsEmpty(ToLower(TypeName(t.txnType)));
    ContainsEmpty(ToLower(t.description));
  }

  // Keywords and queries

  /** The field prefixes, in the order they are tried. */
  predicate HasFieldPrefix(kw: string) {
    CutPrefix(kw, "d:").Some? || CutPrefix(kw, "t:").Some? || CutPrefix(kw, "a:").Some? ||
    CutPrefix(kw, "c:").Some? || CutPrefix(kw, "m:").Some? || CutPrefix(kw, "p:").Some?
  }

  /** One keyword: a prefixed keyword tests its field only, an unprefixed one any field. */
  function MatchKeyword(t: Transaction, kw: string): bool {
    match CutPrefix(kw, "d:")
    case Some(k) => MatchesDate(t, k)
    case None =>
    match CutPrefix(kw, "t:")
    case Some(k) => MatchesType(t, k)
    case None =>
    match CutPrefix(kw, "a:")
    case Some(k) => MatchesAccount(t, k)
    case None =>
    match CutPrefix(kw, "c:")
    case Some(k) => MatchesCategory(t, k)
    case None =>
    match CutPrefix(kw, "m:")
    case Some(k) => MatchesAmount(t, k)
    case None =>
    match CutPrefix(kw, "p:")
    case Some(k) => MatchesDescription(t, k)
    case None =>
      MatchesDate(t, kw) || MatchesType(t, kw) || MatchesAccount(t, kw) ||
      MatchesCategory(t, kw) || MatchesAmount(t, kw) || MatchesDescription(t, kw)
  }

  /** A prefixed keyword is decided by its own field alone. */
  lemma CutPrefixMismatch(kw: string, prefix: string)
    requires |prefix| >= 1 && |kw| >= 1 && kw[0] != prefix[0]
    ensures CutPrefix(kw, prefix) == None
  {
  }

  lemma PrefixedKeyword(t: Transaction, k: string)
    ensures MatchKeyword(t, "d:" + k) == MatchesDate(t, k)
    ensures MatchKeyword(t, "t:" + k) == MatchesType(t, k)
    ensures MatchKeyword(t, "a:" + k) == MatchesAccount(t, k)
    ensures MatchKeyword(t, "c:" + k) == MatchesCategory(t, k)
    ensures MatchKeyword(t, "m:" + k) == MatchesAmount(t, k)
    ensures MatchKeyword(t, "p:" + k) == MatchesDescription(t, k)
  {
    var prefixes := ["d:", "t:", "a:", "c:", "m:", "p:"];
    forall i, j | 0 <= i < 6 && 0 <= j < 6
      ensures CutPrefix(prefixes[i] + k, prefixes[j]) == if i == j then Some(k) else None
    {
      CutPrefixOf(prefixes[i], k);
      if i != j {
        CutPrefixMismatch(prefixes[i] + k, prefixes[j]);
      }
    }
    assert prefixes[0] == "d:" && prefixes[1] == "t:" && prefixes[2] == "a:";
    assert prefixes[3] == "c:" && prefixes[4] == "m:" && prefixes[5] == "p:";
  }

  /** Two transactions that agree on a field agree on every keyword prefixed with it. */
  lemma PrefixIsolation(t: Transaction, u: Transaction, k: string)
    ensures t.date == u.date ==> MatchKeyword(t, "d:" + k) == MatchKeyword(u, "d:" + k)
    ensures t.txnType == u.txnType ==> MatchKeyword(t, "t:" + k) == MatchKeyword(u, "t:" + k)
    ensures t.account == u.account ==> MatchKeyword(t, "a:" + k) == MatchKeyword(u, "a:" + k)
    ensures t.category == u.category ==> MatchKeyword(t, "c:" + k) == MatchKeyword(u, "c:" + k)
    ensures t.amount == u.amount ==> MatchKeyword(t, "m:" + k) == MatchKeyword(u, "m:" + k)
    ensures t.description == u.description ==> MatchKeyword(t, "p:" + k) == MatchKeyword(u, "p:" + k)
  {
    PrefixedKeyword(t, k);
    PrefixedKeyword(u, k);
  }

  /** A keyword without a field prefix matches when any of the six fields matches it. */
  lemma UnprefixedKeyword(t: Transaction, kw: string)
    requires !HasFieldPrefix(kw)
    ensures MatchKeyword(t, kw) <==>
            MatchesDate(t, kw) || MatchesType(t, kw) || MatchesAccount(t, kw) ||
            MatchesCategory(t, kw) || MatchesAmount(t, kw) || MatchesDescription(t, kw)
  {
  }

  /** One keyword of a query: a leading '-' inverts it. */
  function KeywordHolds(t: Transaction, kw: string): bool {
    match CutPrefix(kw, "-")
    case Some(k) => !MatchKeyword(t, k)
    case None => MatchKeyword(t, kw)
  }

  lemma NegatedKeyword(t: Transaction, k: string)
    ensures KeywordHolds(t, "-" + k) <==> !MatchKeyword(t, k)
  {
    CutPrefixOf("-", k);
  }

  /** Transaction.Matches: every keyword must hold; the scan stops at the first that does not. */
  function Matches(t: Transaction, kws: seq<string>): (r: bool)
    ensures r <==> forall i :: 0 <= i < |kws| ==> KeywordHolds(t, kws[i])
  {
    if kws == [] then true
    else if !KeywordHolds(t, kws[0]) then false
    else
      var r := Matches(t, kws[1..]);
      assert forall i :: 1 <= i < |kws| ==> kws[i] == kws[1..][i - 1];
      r
  }

  /** Keywords combine by conjunction: a query is the intersection of its parts. */
  lemma {:induction false} MatchesAppend(t: Transaction, a: seq<string>, b: seq<string>)
    ensures Matches(t, a + b) <==> Matches(t, a) && Matches(t, b)
  {
    assert forall i :: 0 <= i < |a| ==> (a + b)[i] == a[i];
    assert forall i :: 0 <= i < |b| ==> (a + b)[|a| + i] == b[i];
  }
}
