/**
 * Money rendering: the integer digits of an amount grouped in threes by
 * commas, and an amount as its `%.2f` text with grouped integer digits.
 */
module Money {
  import opened Wrappers
  import opened Text
  import opened Numeric

  /**
   * Commas every three characters counted from the right: the reference
   * the grouping loop is measured against.
   */
  function GroupThrees(s: string): string
    decreases |s|
  {
    if |s| <= 3 then s else GroupThrees(s[..|s| - 3]) + ("," + s[|s| - 3..])
  }

  /** The loop's rule: a comma goes before position `i` exactly when `i > 0` and a multiple of three characters remains from `i` on. */
  predicate CommaBefore(s: string, i: nat) {
    i > 0 && (|s| - i) % 3 == 0
  }

  /** What the grouping loop has built after its first `n` characters. */
  function CommaPrefix(s: string, n: nat): string
    requires n <= |s|
  {
    if n == 0 then "" else CommaPrefix(s, n - 1) + Piece(s, n - 1)
  }

  /** The loop's output for position `i`: the character, after a comma when the rule picks `i`. */
  function Piece(s: string, i: nat): string
    requires i < |s|
  {
    if CommaBefore(s, i) then [',', s[i]] else [s[i]]
  }

  /** formatInteger: the characters of `integer` in order, a comma before each position the rule picks. */
  method FormatInteger(integer: string) returns (formatted: string)
    ensures formatted == GroupThrees(integer)
  {
    formatted := "";
    var i := 0;
    while i < |integer|
      invariant 0 <= i <= |integer|
      invariant formatted == CommaPrefix(integer, i)
    {
      if i > 0 && (|integer| - i) % 3 == 0 {
        formatted := formatted + ",";
      }
      formatted := formatted + [integer[i]];
      i := i + 1;
    }
    LoopGroupsThrees(integer);
  }

  /** Strings of at most three characters get no comma. */
  lemma {:induction false} ShortUnchanged(s: string, n: nat)
    requires n <= |s| <= 3
    ensures CommaPrefix(s, n) == s[..n]
  {
    if n > 0 {
      ShortUnchanged(s, n - 1);
      assert !CommaBefore(s, n - 1);
      assert s[..n] == s[..n - 1] + [s[n - 1]];
    }
  }

  /** Dropping the last three characters does not move the comma positions before them. */
  lemma {:induction false} CommaPrefixDropThree(s: string, n: nat)
    requires |s| > 3 && n <= |s| - 3
    ensures CommaPrefix(s, n) == CommaPrefix(s[..|s| - 3], n)
  {
    if n > 0 {
      CommaPrefixDropThree(s, n - 1);
      assert CommaBefore(s, n - 1) == CommaBefore(s[..|s| - 3], n - 1);
    }
  }

  /** The position rule of the loop and the three-from-the-right reference agree on every string. */
  lemma {:induction false} LoopGroupsThrees(s: string)
    ensures CommaPrefix(s, |s|) == GroupThrees(s)
    decreases |s|
  {
    if |s| <= 3 {
      ShortUnchanged(s, |s|);
      assert s[..|s|] == s;
    } else {
      var t := s[..|s| - 3];
      var tail := "," + s[|s| - 3..];
      CommaPrefixDropThree(s, |s| - 3);
      LoopGroupsThrees(t);
      LastGroup(s);
      calc {
        CommaPrefix(s, |s|);
        CommaPrefix(s, |s| - 3) + tail;
        CommaPrefix(t, |t|) + tail;
        GroupThrees(t) + tail;
      }
    }
  }

  /** The last three characters of a longer string form a group of their own. */
  lemma LastGroup(s: string)
    requires |s| > 3
    ensures CommaPrefix(s, |s|) == CommaPrefix(s, |s| - 3) + ("," + s[|s| - 3..])
  {
    var n := |s|;
    var a := CommaPrefix(s, n - 3);
    assert CommaPrefix(s, n - 2) == a + Piece(s, n - 3);
    assert CommaPrefix(s, n - 1) == a + Piece(s, n - 3) + Piece(s, n - 2);
    assert CommaPrefix(s, n) == a + Piece(s, n - 3) + Piece(s, n - 2) + Piece(s, n - 1);
    Assoc3(a, Piece(s, n - 3), Piece(s, n - 2), Piece(s, n - 1));
    LastPieces(s);
  }

  lemma LastPieces(s: string)
    requires |s| > 3
    ensures Piece(s, |s| - 3) + Piece(s, |s| - 2) + Piece(s, |s| - 1) == "," + s[|s| - 3..]
  {
    var n := |s|;
    assert Piece(s, n - 3) == [',', s[n - 3]];
    assert Piece(s, n - 2) == [s[n - 2]];
    assert Piece(s, n - 1) == [s[n - 1]];
    assert s[n - 3..] == [s[n - 3], s[n - 2], s[n - 1]];
  }



  lemma Assoc3(a: string, x: string, y: string, z: string)
    ensures a + x + y + z == a + (x + y + z)
  {
  }

  /** Grouping never puts a comma first. */
  lemma {:induction false} NoLeadingComma(s: string)
    requires |s| > 0
    ensures |GroupThrees(s)| > 0 && GroupThrees(s)[0] == s[0]
    decreases |s|
  {
    if |s| > 3 {
      NoLeadingComma(s[..|s| - 3]);
    }
  }

  /** Removing the commas from a grouped string without commas gives the string back. */
  lemma {:induction false} CommasRemoved(s: string)
    requires forall i :: 0 <= i < |s| ==> s[i] != ','
    ensures RemoveChar(GroupThrees(s), ',') == s
    decreases |s|
  {
    if |s| <= 3 {
      RemoveCharAbsent(s, ',');
    } else {
      var t := s[..|s| - 3];
      var tail := s[|s| - 3..];
      CommasRemoved(t);
      CommaGroupRemoved(tail);
      RemoveCharAppend(GroupThrees(t), "," + tail, ',');
      assert t + tail == s;
    }
  }

  /** A comma and a comma-free group lose the comma. */
  lemma CommaGroupRemoved(tail: string)
    requires forall i :: 0 <= i < |tail| ==> tail[i] != ','
    ensures RemoveChar("," + tail, ',') == tail
  {
    RemoveCharAppend(",", tail, ',');
    RemoveCharAbsent(tail, ',');
    assert RemoveChar(",", ',') == "";
  }

  /** A non-empty string gains exactly (|s| - 1) / 3 commas. */
  lemma {:induction false} CommaCount(s: string)
    requires |s| > 0
    ensures |GroupThrees(s)| == |s| + (|s| - 1) / 3
    decreases |s|
  {
    if |s| > 3 {
      CommaCount(s[..|s| - 3]);
    }
  }

  /**
   * Illustration only: the two examples the source's comment gives. The
   * general facts are LoopGroupsThrees, CommasRemoved and CommaCount.
   */
  lemma GroupingExamples()
    ensures GroupThrees("1234") == "1,234"
    ensures GroupThrees("1234567") == "1,234,567"
  {
    assert "1234"[..1] == "1" && "1234"[1..] == "234";
    assert "1234567"[..4] == "1234" && "1234567"[4..] == "567";
  }

  /** `%.2f` text never holds a comma. */
  lemma TwoDecimalsNoComma(x: real)
    ensures forall i :: 0 <= i < |TwoDecimals(x)| ==> TwoDecimals(x)[i] != ','
  {
    if x < 0.0 {
      UnsignedNoComma(-x);
      assert TwoDecimals(x) == "-" + TwoDecimals(-x);
    } else {
      UnsignedNoComma(x);
    }
  }

  lemma UnsignedNoComma(x: real)
    requires x >= 0.0
    ensures forall i :: 0 <= i < |TwoDecimals(x)| ==> TwoDecimals(x)[i] != ','
  {
    {
      var s := TwoDecimals(x);
      TwoDecimalsShape(x);
      forall i | 0 <= i < |s|
        ensures s[i] != ','
      {
        if i < |s| - 3 {
          assert s[..|s| - 3][i] == s[i];
        } else if i > |s| - 3 {
          assert s[|s| - 2..][i - (|s| - 2)] == s[i];
        }
      }
    }
  }

  /** Grouping the text before a '.' and keeping the rest removes nothing but commas. */
  lemma GroupedBeforeDot(s: string, k: nat)
    requires k < |s| && s[k] == '.'
    requires forall i :: 0 <= i < |s| ==> s[i] != ','
    ensures RemoveChar(GroupThrees(s[..k]) + ("." + s[k + 1..]), ',') == s
  {
    DotSplit(s, k);
    CommasRemoved(s[..k]);
    RemoveCharAppend(GroupThrees(s[..k]), s[k..], ',');
    RemoveCharAbsent(s[k..], ',');
  }

  lemma DotSplit(s: string, k: nat)
    requires k < |s| && s[k] == '.'
    requires forall i :: 0 <= i < |s| ==> s[i] != ','
    ensures "." + s[k + 1..] == s[k..] && s[..k] + s[k..] == s
    ensures forall i :: 0 <= i < |s[k..]| ==> s[k..][i] != ','
    ensures forall i :: 0 <= i < |s[..k]| ==> s[..k][i] != ','
  {
    assert forall i :: 0 <= i < |s[k..]| ==> s[k..][i] == s[k + i];
  }

  /**
   * FormatMoney: the `%.2f` text split at its '.', the integer part
   * grouped, the decimals kept. Removing the commas gives the `%.2f`
   * text back.
   */
  function FormatMoney(amount: real): (r: string)
    ensures RemoveChar(r, ',') == TwoDecimals(amount)
  {
    var s := TwoDecimals(amount);
    TwoDecimalsNoComma(amount);
    RemoveCharAbsent(s, ',');
    match FirstIndexOf(s, '.')
    case None => s
    case Some(k) =>
      GroupedBeforeDot(s, k);
      GroupThrees(s[..k]) + ("." + s[k + 1..])
  }

  /** For the non-negative amounts the views show, the text is the grouped integer digits, a '.', and two decimals. */
  lemma FormatMoneyParts(amount: real)
    requires amount >= 0.0
    ensures var s := TwoDecimals(amount);
      var digits := s[..|s| - 3];
      FormatMoney(amount) == GroupThrees(digits) + ("." + s[|s| - 2..]) &&
      AllDigits(digits) && |digits| >= 1 && AllDigits(s[|s| - 2..]) && |s[|s| - 2..]| == 2
  {
    TwoDecimalsShape(amount);
  }

  /**
   * For a negative amount the sign is grouped with the digits: a comma
   * follows the '-' when the digits number a multiple of three. The views
   * only show non-negative amounts, so this text is never displayed.
   */
  lemma NegativeSignGrouped()
    ensures FormatMoney(-123.0) == "-,123.00"
  {
    var s := TwoDecimals(-123.0);
    MinusTwoDecimals();
    var k :| FirstIndexOf(s, '.') == Some(k);
    assert s[4] == '.';
    assert s[..4] == "-123" && s[5..] == "00";
    assert "-123"[..1] == "-" && "-123"[1..] == "123";
  }

  /** The `%.2f` text of -123. */
  lemma MinusTwoDecimals()
    ensures TwoDecimals(-123.0) == "-123.00"
    ensures FirstIndexOf(TwoDecimals(-123.0), '.').Some?
  {
    assert RoundHalfEven(123.0 * 100.0) == 12300;
    assert NatToString(12) == "12";
    assert NatToString(123) == NatToString(12) + "3";
    assert Zeros(2) == "00";
    assert ZeroPad(0, 2) == "00";
    assert UnsignedTwoDecimals(123.0) == "123.00";
    assert "-123.00"[4] == '.';
  }
}
