/**
 * The string operations of Go's `strings` package that the core relies on,
 * over `string` = `seq<char>`.
 */
module Text {
  import opened Wrappers

  /** unicode.IsSpace: the white-space characters `strings.TrimSpace` and `strings.Fields` split on. */
  predicate IsSpace(c: char) {
    c == ' ' || c == '\t' || c == '\n' || c == '\U{000B}' || c == '\U{000C}' || c == '\r' ||
    c == '\U{0085}' || c == '\U{00A0}' || c == '\U{1680}' ||
    ('\U{2000}' <= c <= '\U{200A}') ||
    c == '\U{2028}' || c == '\U{2029}' || c == '\U{202F}' || c == '\U{205F}' || c == '\U{3000}'
  }

  /** The class `\s` of Go's regular expressions: `[\t\n\f\r ]`. */
  predicate IsRegexSpace(c: char) {
    c == ' ' || c == '\t' || c == '\n' || c == '\U{000C}' || c == '\r'
  }

  lemma RegexSpaceIsSpace(c: char)
    ensures IsRegexSpace(c) ==> IsSpace(c)
  {
  }

  predicate IsAsciiDigit(c: char) {
    '0' <= c <= '9'
  }

  function ToLowerChar(c: char): char {
    if 'A' <= c <= 'Z' then (c as int + 32) as char else c
  }

  /** strings.ToLower, restricted to ASCII letters. */
  function ToLower(s: string): string {
    seq(|s|, i requires 0 <= i < |s| => ToLowerChar(s[i]))
  }

  predicate IsLower(s: string) {
    forall i :: 0 <= i < |s| ==> !('A' <= s[i] <= 'Z')
  }

  lemma ToLowerIsLower(s: string)
    ensures IsLower(ToLower(s)) && |ToLower(s)| == |s|
    ensures IsLower(s) ==> ToLower(s) == s
  {
  }

  /** `sub` occurs in `s` starting at position `i`. */
  predicate OccursAt(s: string, sub: string, i: int) {
    0 <= i && i + |sub| <= |s| && s[i..i + |sub|] == sub
  }

  /** strings.Contains: `sub` occurs somewhere in `s` (the empty string occurs everywhere). */
  predicate Contains(s: string, sub: string) {
    exists i :: 0 <= i <= |s| && OccursAt(s, sub, i)
  }

  /** Every piece of a text without upper-case letters has none either. */
  lemma ContainsLower(s: string, sub: string)
    requires IsLower(s) && Contains(s, sub)
    ensures IsLower(sub)
  {
    var i :| 0 <= i <= |s| && OccursAt(s, sub, i);
    forall k | 0 <= k < |sub| ensures !('A' <= sub[k] <= 'Z') {
      assert sub[k] == s[i + k];
    }
  }

  lemma ContainsEmpty(s: string)
    ensures Contains(s, "")
  {
    assert OccursAt(s, "", 0);
  }

  lemma ContainsSelf(s: string)
    ensures Contains(s, s)
  {
    assert OccursAt(s, s, 0);
  }

  /** The first position at which `sub` occurs in `s`, if any. */
  function FindFirst(s: string, sub: string): (r: Option<nat>)
    ensures r.Some? ==> OccursAt(s, sub, r.value)
    ensures r.Some? ==> forall j :: 0 <= j < r.value ==> !OccursAt(s, sub, j)
    ensures r.None? <==> !Contains(s, sub)
    decreases |s|
  {
    if |sub| > |s| then None
    else if s[..|sub|] == sub then
      assert OccursAt(s, sub, 0);
      Some(0)
    else
      var rest := FindFirst(s[1..], sub);
      ShiftOccurrence(s, sub);
      if rest.None? then
        assert !OccursAt(s, sub, 0);
        None
      else
        Some(rest.value + 1)
  }

  lemma ShiftOccurrence(s: string, sub: string)
    requires |s| > 0
    ensures forall i :: i >= 1 ==> (OccursAt(s, sub, i) <==> OccursAt(s[1..], sub, i - 1))
  {
    forall i | i >= 1
      ensures OccursAt(s, sub, i) <==> OccursAt(s[1..], sub, i - 1)
    {
      if i + |sub| <= |s| {
        SliceOfTail(s, i, i + |sub|);
      }
    }
  }

  lemma SliceOfTail(s: string, a: int, b: int)
    requires 1 <= a <= b <= |s|
    ensures s[a..b] == s[1..][a - 1..b - 1]
  {
    assert forall k :: 0 <= k < b - a ==> s[a..b][k] == s[a + k] == s[1..][a - 1..b - 1][k];
  }

  lemma OccursInPrefix(s: string, sub: string, n: int, j: int)
    requires 0 <= n <= |s| && OccursAt(s[..n], sub, j)
    ensures OccursAt(s, sub, j)
  {
    assert s[..n][j..j + |sub|] == s[j..j + |sub|];
  }

  /** strings.Split(s, sep) for a non-empty separator. */
  function Split(s: string, sep: string): (r: seq<string>)
    requires |sep| > 0
    ensures |r| >= 1
    ensures forall k :: 0 <= k < |r| ==> !Contains(r[k], sep)
    decreases |s|
  {
    match FindFirst(s, sep)
    case None => [s]
    case Some(i) =>
      var head := s[..i];
      assert !Contains(head, sep) by {
        if Contains(head, sep) {
          var j :| 0 <= j <= |head| && OccursAt(head, sep, j);
          OccursInPrefix(s, sep, i, j);
        }
      }
      [head] + Split(s[i + |sep|..], sep)
  }

  /** strings.Join: the pieces with `sep` between consecutive ones. */
  function Join(parts: seq<string>, sep: string): string {
    if |parts| == 0 then ""
    else if |parts| == 1 then parts[0]
    else parts[0] + sep + Join(parts[1..], sep)
  }

  /** Splitting on `sep` and joining again gives back the text. */
  lemma {:induction false} JoinSplit(s: string, sep: string)
    requires |sep| > 0
    ensures Join(Split(s, sep), sep) == s
    decreases |s|
  {
    var f := FindFirst(s, sep);
    if f.Some? {
      var i := f.value;
      var rest := s[i + |sep|..];
      var parts := Split(rest, sep);
      JoinSplit(rest, sep);
      JoinCons(s[..i], parts, sep);
      SplitAround(s, i, |sep|);
      calc {
        Join(Split(s, sep), sep);
        Join([s[..i]] + parts, sep);
        s[..i] + sep + Join(parts, sep);
        s[..i] + s[i..i + |sep|] + rest;
      }
    }
  }

  lemma JoinCons(head: string, parts: seq<string>, sep: string)
    requires |parts| >= 1
    ensures Join([head] + parts, sep) == head + sep + Join(parts, sep)
  {
    assert ([head] + parts)[1..] == parts;
  }

  lemma SplitAround(s: string, i: int, n: int)
    requires 0 <= i && 0 <= n && i + n <= |s|
    ensures s == s[..i] + s[i..i + n] + s[i + n..]
  {
  }

  function DropLeadingSpace(s: string): (r: string)
    ensures |r| <= |s| && r == s[|s| - |r|..]
    ensures r == [] || !IsSpace(r[0])
  {
    if |s| > 0 && IsSpace(s[0]) then DropLeadingSpace(s[1..]) else s
  }

  lemma {:induction false} DropLeadingSpaceDropsSpace(s: string)
    ensures forall i :: 0 <= i < |s| - |DropLeadingSpace(s)| ==> IsSpace(s[i])
  {
    if |s| > 0 && IsSpace(s[0]) {
      DropLeadingSpaceDropsSpace(s[1..]);
    }
  }

  function DropTrailingSpace(s: string): (r: string)
    ensures |r| <= |s| && r == s[..|r|]
    ensures r == [] || !IsSpace(r[|r| - 1])
  {
    if |s| > 0 && IsSpace(s[|s| - 1]) then DropTrailingSpace(s[..|s| - 1]) else s
  }

  lemma {:induction false} DropTrailingSpaceDropsSpace(s: string)
    ensures forall i :: |DropTrailingSpace(s)| <= i < |s| ==> IsSpace(s[i])
  {
    if |s| > 0 && IsSpace(s[|s| - 1]) {
      DropTrailingSpaceDropsSpace(s[..|s| - 1]);
    }
  }

  /** strings.TrimSpace */
  function TrimSpace(s: string): string {
    DropTrailingSpace(DropLeadingSpace(s))
  }

  /** TrimSpace yields the empty string exactly for blank text. */
  lemma TrimSpaceEmpty(s: string)
    ensures TrimSpace(s) == [] <==> forall k :: 0 <= k < |s| ==> IsSpace(s[k])
  {
    var l := DropLeadingSpace(s);
    DropLeadingSpaceDropsSpace(s);
    DropTrailingSpaceDropsSpace(l);
    if l != [] {
      assert !IsSpace(s[|s| - |l|]);
      assert DropTrailingSpace(l) != [];
    }
  }

  /** The maximal run of non-space characters at the front of `s`. */
  function TakeWord(s: string): (w: string)
    ensures |w| <= |s| && w == s[..|w|]
    ensures forall i :: 0 <= i < |w| ==> !IsSpace(w[i])
    ensures |w| == |s| || IsSpace(s[|w|])
  {
    if |s| == 0 || IsSpace(s[0]) then [] else [s[0]] + TakeWord(s[1..])
  }

  /** A non-empty run of non-space characters. */
  predicate IsWord(w: string) {
    |w| > 0 && forall i :: 0 <= i < |w| ==> !IsSpace(w[i])
  }

  /** strings.Fields: the maximal runs of non-space characters, in order. */
  function Fields(s: string): (r: seq<string>)
    ensures forall k :: 0 <= k < |r| ==> IsWord(r[k])
    decreases |s|
  {
    var t := DropLeadingSpace(s);
    if t == [] then []
    else
      var w := TakeWord(t);
      assert IsWord(w);
      var rest := Fields(t[|w|..]);
      WordsCons(w, rest);
      [w] + rest
  }

  lemma WordsCons(w: string, rest: seq<string>)
    requires IsWord(w) && forall k :: 0 <= k < |rest| ==> IsWord(rest[k])
    ensures forall k :: 0 <= k < |[w] + rest| ==> IsWord(([w] + rest)[k])
  {
    var r := [w] + rest;
    assert forall k :: 1 <= k < |r| ==> r[k] == rest[k - 1];
  }

  /** A text has no fields exactly when it is blank, i.e. when it trims to the empty string. */
  lemma {:induction false} FieldsEmpty(s: string)
    ensures Fields(s) == [] <==> TrimSpace(s) == []
  {
    TrimSpaceEmpty(s);
    var t := DropLeadingSpace(s);
    if t != [] {
      assert !IsSpace(s[|s| - |t|]);
    }
  }

  /** Text made only of white space (possibly none). */
  predicate Blank(s: string) {
    forall i :: 0 <= i < |s| ==> IsSpace(s[i])
  }

  /**
   * Gaps for `n` words: n + 1 blank texts, where every gap between two
   * words holds at least one space; the first and the last may be empty.
   */
  predicate Gaps(gaps: seq<string>, n: nat) {
    |gaps| == n + 1 &&
    (forall i :: 0 <= i < |gaps| ==> Blank(gaps[i])) &&
    (forall i :: 0 < i < n ==> |gaps[i]| > 0)
  }

  /** gaps[0] + words[0] + gaps[1] + ... + words[n - 1] + gaps[n]. */
  function Weave(gaps: seq<string>, words: seq<string>): string
    requires |gaps| == |words| + 1
    decreases |words|
  {
    if words == [] then gaps[0] else gaps[0] + words[0] + Weave(gaps[1..], words[1..])
  }

  /** The blank text before each field of `s`, and after the last. */
  function GapsOf(s: string): (gaps: seq<string>)
    decreases |s|
  {
    var t := DropLeadingSpace(s);
    if t == [] then [LeadingSpace(s)] else [LeadingSpace(s)] + GapsOf(t[|TakeWord(t)|..])
  }

  /** The white space DropLeadingSpace removes. */
  function LeadingSpace(s: string): string {
    s[..|s| - |DropLeadingSpace(s)|]
  }

  lemma DropLeadingBlank(gap: string, rest: string)
    requires Blank(gap) && (rest == [] || !IsSpace(rest[0]))
    ensures DropLeadingSpace(gap + rest) == rest
    decreases |gap|
  {
    if gap != [] {
      assert (gap + rest)[1..] == gap[1..] + rest;
      DropLeadingBlank(gap[1..], rest);
    }
  }

  lemma {:induction false} TakeWordBefore(w: string, rest: string)
    requires forall i :: 0 <= i < |w| ==> !IsSpace(w[i])
    requires rest == [] || IsSpace(rest[0])
    ensures TakeWord(w + rest) == w
    decreases |w|
  {
    if w != [] {
      assert (w + rest)[1..] == w[1..] + rest;
      TakeWordBefore(w[1..], rest);
    } else {
      assert w + rest == rest;
    }
  }

  lemma {:induction false} WeaveStartsBlank(gaps: seq<string>, words: seq<string>)
    requires |gaps| == |words| + 1 && |gaps[0]| > 0 && Blank(gaps[0])
    ensures |Weave(gaps, words)| > 0 && IsSpace(Weave(gaps, words)[0])
  {
  }

  /** What follows the first word of a weave is empty or starts with a space. */
  lemma WeaveRestBlank(gaps: seq<string>, words: seq<string>)
    requires |words| > 0 && Gaps(gaps, |words|)
    ensures var rest := Weave(gaps[1..], words[1..]);
            rest == [] || IsSpace(rest[0])
  {
    GapsTail(gaps, |words|);
    if |words| > 1 {
      WeaveStartsBlank(gaps[1..], words[1..]);
    } else {
      assert Weave(gaps[1..], words[1..]) == gaps[1];
    }
  }

  /** Fields after its first step: the first word, then the fields of what follows it. */
  lemma FieldsStep(s: string)
    requires DropLeadingSpace(s) != []
    ensures var t := DropLeadingSpace(s);
            Fields(s) == [TakeWord(t)] + Fields(t[|TakeWord(t)|..])
  {
  }

  /** The gaps after the first word are gaps for the remaining words. */
  lemma GapsTail(gaps: seq<string>, n: nat)
    requires n > 0 && Gaps(gaps, n)
    ensures Gaps(gaps[1..], n - 1) && Blank(gaps[0])
    ensures n > 1 ==> |gaps[1]| > 0
  {
    assert forall i :: 0 < i < n - 1 ==> gaps[1..][i] == gaps[i + 1];
  }

  /**
   * The fields of `s` are its maximal runs of non-space characters, in
   * order: `s` is the fields woven with blank gaps, the gaps between two
   * fields never empty.
   */
  lemma {:induction false} FieldsWeave(s: string)
    ensures Gaps(GapsOf(s), |Fields(s)|)
    ensures s == Weave(GapsOf(s), Fields(s))
    decreases |s|
  {
    var lead, w, rest := SplitFirst(s);
    if w == [] {
      assert s == lead + [];
    } else {
      FieldsWeave(rest);
      FieldsWeaveStep(s, lead, w, rest, GapsOf(rest), Fields(rest));
    }
  }

  /** One step of Fields and GapsOf: a blank lead, then either nothing or the first word and the rest. */
  lemma SplitFirst(s: string) returns (lead: string, w: string, rest: string)
    ensures Blank(lead)
    ensures w == [] ==> s == lead && GapsOf(s) == [lead] && Fields(s) == []
    ensures w != [] ==> IsWord(w) && s == lead + (w + rest) && (rest == [] || IsSpace(rest[0])) && |rest| < |s| &&
                        GapsOf(s) == [lead] + GapsOf(rest) && Fields(s) == [w] + Fields(rest)
  {
    var t := DropLeadingSpace(s);
    lead := LeadingSpace(s);
    LeadSplit(s);
    LeadBlank(s);
    GapsOfStep(s);
    if t == [] {
      w, rest := [], [];
      assert s == lead + [];
    } else {
      w := TakeWord(t);
      rest := t[|w|..];
      FirstWord(t);
      FieldsStep(s);
    }
  }

  /** GapsOf after its first step, and Fields when nothing but space is left. */
  lemma GapsOfStep(s: string)
    ensures var t := DropLeadingSpace(s);
            if t == [] then GapsOf(s) == [LeadingSpace(s)] && Fields(s) == []
            else GapsOf(s) == [LeadingSpace(s)] + GapsOf(t[|TakeWord(t)|..])
  {
  }

  /** A text that starts with a non-space character is its first word and what follows it. */
  lemma FirstWord(t: string)
    requires t != [] && !IsSpace(t[0])
    ensures var w := TakeWord(t);
            IsWord(w) && t == w + t[|w|..] && (t[|w|..] == [] || IsSpace(t[|w|..][0]))
  {
  }

  /** A text is its leading white space followed by the rest. */
  lemma LeadSplit(s: string)
    ensures s == LeadingSpace(s) + DropLeadingSpace(s)
  {
    var k := |s| - |DropLeadingSpace(s)|;
    assert s == s[..k] + s[k..];
  }

  /** The leading white space is blank. */
  lemma LeadBlank(s: string)
    ensures Blank(LeadingSpace(s))
  {
    DropLeadingSpaceDropsSpace(s);
    BlankPrefix(s, |s| - |DropLeadingSpace(s)|);
  }

  lemma BlankPrefix(s: string, k: nat)
    requires k <= |s| && forall i :: 0 <= i < k ==> IsSpace(s[i])
    ensures Blank(s[..k])
  {
  }

  /** A blank lead and a word put in front of a weave give a weave with one more word. */
  lemma FieldsWeaveStep(s: string, lead: string, w: string, rest: string, gs: seq<string>, ws: seq<string>)
    requires Blank(lead) && s == lead + (w + rest) && (rest == [] || IsSpace(rest[0]))
    requires Gaps(gs, |ws|) && rest == Weave(gs, ws) && forall k :: 0 <= k < |ws| ==> IsWord(ws[k])
    ensures Gaps([lead] + gs, |[w] + ws|)
    ensures s == Weave([lead] + gs, [w] + ws)
  {
    var gaps, words := [lead] + gs, [w] + ws;
    assert gaps[1..] == gs && words[1..] == ws;
    assert forall i :: 0 < i < |gaps| ==> gaps[i] == gs[i - 1];
  }

  /** A blank text has no fields. */
  lemma FieldsBlank(gap: string)
    requires Blank(gap)
    ensures Fields(gap) == []
  {
    assert gap + [] == gap;
    DropLeadingBlank(gap, []);
  }

  /** After a blank gap, a word followed by a space or the end is the first field. */
  lemma FieldsCons(gap: string, w: string, rest: string)
    requires Blank(gap) && IsWord(w) && (rest == [] || IsSpace(rest[0]))
    ensures Fields(gap + (w + rest)) == [w] + Fields(rest)
  {
    DropLeadingBlank(gap, w + rest);
    TakeWordBefore(w, rest);
    assert (w + rest)[|w|..] == rest;
    FieldsStep(gap + (w + rest));
  }

  lemma WeaveCons(gaps: seq<string>, words: seq<string>)
    requires |gaps| == |words| + 1 && |words| > 0
    ensures Weave(gaps, words) == gaps[0] + (words[0] + Weave(gaps[1..], words[1..]))
  {
  }

  /**
   * Conversely, any way of writing `s` as words woven with such gaps is
   * its fields: the decomposition is unique.
   */
  lemma {:induction false} WeaveFields(gaps: seq<string>, words: seq<string>)
    requires Gaps(gaps, |words|) && forall k :: 0 <= k < |words| ==> IsWord(words[k])
    ensures Fields(Weave(gaps, words)) == words
    decreases |words|
  {
    if words == [] {
      FieldsBlank(gaps[0]);
    } else {
      var rest := Weave(gaps[1..], words[1..]);
      GapsTail(gaps, |words|);
      WeaveRestBlank(gaps, words);
      WeaveCons(gaps, words);
      FieldsCons(gaps[0], words[0], rest);
      WeaveFields(gaps[1..], words[1..]);
      assert words == [words[0]] + words[1..];
    }
  }

  /** strings.ReplaceAll(s, [c], ""). */
  function RemoveChar(s: string, c: char): (r: string)
    ensures forall i :: 0 <= i < |r| ==> r[i] != c
    ensures |r| <= |s|
  {
    if s == [] then []
    else if s[0] == c then RemoveChar(s[1..], c)
    else [s[0]] + RemoveChar(s[1..], c)
  }

  lemma {:induction false} RemoveCharAppend(a: string, b: string, c: char)
    ensures RemoveChar(a + b, c) == RemoveChar(a, c) + RemoveChar(b, c)
  {
    if a != [] {
      assert (a + b)[1..] == a[1..] + b;
      RemoveCharAppend(a[1..], b, c);
    } else {
      assert a + b == b;
    }
  }

  /** Every character of RemoveChar(s, c) comes from `s`, at the same or a later position. */
  lemma {:induction false} RemoveCharFrom(s: string, c: char, j: int)
    requires 0 <= j < |RemoveChar(s, c)|
    ensures exists i :: j <= i < |s| && s[i] == RemoveChar(s, c)[j]
  {
    if s[0] == c {
      RemoveCharFrom(s[1..], c, j);
      var i :| j <= i < |s[1..]| && s[1..][i] == RemoveChar(s[1..], c)[j];
      assert s[i + 1] == s[1..][i];
    } else if j > 0 {
      RemoveCharFrom(s[1..], c, j - 1);
      var i :| j - 1 <= i < |s[1..]| && s[1..][i] == RemoveChar(s[1..], c)[j - 1];
      assert s[i + 1] == s[1..][i];
    }
  }

  lemma {:induction false} RemoveCharAbsent(s: string, c: char)
    requires forall i :: 0 <= i < |s| ==> s[i] != c
    ensures RemoveChar(s, c) == s
  {
    if s != [] {
      RemoveCharAbsent(s[1..], c);
    }
  }

  /** The last position of `c` in `s`, if any. */
  function LastIndexOf(s: string, c: char): (r: Option<nat>)
    ensures r.Some? ==> r.value < |s| && s[r.value] == c && forall j :: r.value < j < |s| ==> s[j] != c
    ensures r.None? ==> forall j :: 0 <= j < |s| ==> s[j] != c
  {
    if s == [] then None
    else if s[|s| - 1] == c then Some(|s| - 1)
    else LastIndexOf(s[..|s| - 1], c)
  }

  /** The first position of `c` in `s`, if any. */
  function FirstIndexOf(s: string, c: char): (r: Option<nat>)
    ensures r.Some? ==> r.value < |s| && s[r.value] == c && forall j :: 0 <= j < r.value ==> s[j] != c
    ensures r.None? ==> forall j :: 0 <= j < |s| ==> s[j] != c
  {
    if s == [] then None
    else if s[0] == c then Some(0)
    else
      var rest := FirstIndexOf(s[1..], c);
      if rest.None? then None else Some(rest.value + 1)
  }
  /**
   * Go's `<` on strings: lexicographic, a proper prefix first. Go compares
   * UTF-8 bytes; on code points the order is the same.
   */
  predicate StrLess(a: string, b: string)
    decreases |a|
  {
    if a == [] then b != []
    else b != [] && (a[0] < b[0] || (a[0] == b[0] && StrLess(a[1..], b[1..])))
  }

  lemma {:induction false} StrLessIrreflexive(a: string)
    ensures !StrLess(a, a)
    decreases |a|
  {
    if a != [] {
      StrLessIrreflexive(a[1..]);
    }
  }

  lemma {:induction false} StrLessTransitive(a: string, b: string, c: string)
    requires StrLess(a, b) && StrLess(b, c)
    ensures StrLess(a, c)
    decreases |a|
  {
    if a != [] && a[0] == b[0] && b[0] == c[0] {
      StrLessTransitive(a[1..], b[1..], c[1..]);
    }
  }

  /** Any two strings are equal or ordered one way. */
  lemma {:induction false} StrLessTrichotomy(a: string, b: string)
    ensures a == b || StrLess(a, b) || StrLess(b, a)
    decreases |a|
  {
    if a != [] && b != [] && a[0] == b[0] {
      StrLessTrichotomy(a[1..], b[1..]);
      if a[1..] == b[1..] {
        assert a == [a[0]] + a[1..] && b == [b[0]] + b[1..];
      }
    }
  }

  /** A string of `n` spaces. */
  function Spaces(n: nat): (r: string)
    ensures |r| == n && forall i :: 0 <= i < n ==> r[i] == ' '
  {
    if n == 0 then "" else Spaces(n - 1) + " "
  }

  /** fmt's `%*s` with width `w`: spaces on the left up to `w` characters; a longer string is kept whole. */
  function PadLeft(s: string, w: nat): (r: string)
    ensures |r| == if |s| < w then w else |s|
    ensures r[|r| - |s|..] == s
    ensures forall i :: 0 <= i < |r| - |s| ==> r[i] == ' '
  {
    if |s| < w then Spaces(w - |s|) + s else s
  }
}
