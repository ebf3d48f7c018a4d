/**
 * The pieces of Python's string handling that the bot relies on, restricted to ASCII:
 * `str.lower`, `str.strip`, `str.split()`, `in` / `split(sep)[0]`, `str.isdigit`, `int(...)`
 * and the digits of a decimal numeral.
 */
module Text {
  import opened Common

  predicate IsDigit(c: char) { '0' <= c <= '9' }

  /** Whitespace as `str.isspace` and the regex class `\s` see it, ASCII part only. */
  predicate IsSpace(c: char) { c == ' ' || ('\t' <= c <= '\r') || ('\U{001C}' <= c <= '\U{001F}') }

  predicate AllDigits(s: string) { forall i :: 0 <= i < |s| ==> IsDigit(s[i]) }

  predicate AllSpace(s: string) { forall i :: 0 <= i < |s| ==> IsSpace(s[i]) }

  function LowerChar(c: char): char { if 'A' <= c <= 'Z' then (c as int + 32) as char else c }

  /** `s.lower()` */
  function Lower(s: string): (r: string)
    ensures |r| == |s|
    ensures forall i :: 0 <= i < |r| ==> !('A' <= r[i] <= 'Z')
    ensures forall i :: 0 <= i < |s| && !('A' <= s[i] <= 'Z') ==> r[i] == s[i]
    ensures forall i :: 0 <= i < |s| && 'A' <= s[i] <= 'Z' ==> 'a' <= r[i] <= 'z' && r[i] as int - 'a' as int == s[i] as int - 'A' as int
  {
    seq(|s|, i requires 0 <= i < |s| => LowerChar(s[i]))
  }

  /** `s.replace(",", ".")` */
  function CommaToDot(s: string): (r: string)
    ensures |r| == |s|
    ensures forall i :: 0 <= i < |s| ==> r[i] == (if s[i] == ',' then '.' else s[i])
  {
    seq(|s|, i requires 0 <= i < |s| => if s[i] == ',' then '.' else s[i])
  }

  function TrimStart(s: string): (r: string)
    ensures |r| <= |s| && r == s[|s| - |r|..]
    ensures r == [] || !IsSpace(r[0])
  {
    if s != [] && IsSpace(s[0]) then TrimStart(s[1..]) else s
  }

  function TrimEnd(s: string): (r: string)
    ensures |r| <= |s| && r == s[..|r|]
    ensures r == [] || !IsSpace(r[|r| - 1])
  {
    if s != [] && IsSpace(s[|s| - 1]) then TrimEnd(s[..|s| - 1]) else s
  }

  /** `s.strip()` */
  function Strip(s: string): (r: string)
    ensures r == [] || (!IsSpace(r[0]) && !IsSpace(r[|r| - 1]))
  {
    TrimEnd(TrimStart(s))
  }

  /** `strip` keeps a contiguous part of the text: what `lstrip` leaves, cut short by `rstrip`. */
  lemma StripIsSlice(s: string)
    ensures |Strip(s)| <= |TrimStart(s)| && Strip(s) == s[|s| - |TrimStart(s)|..|s| - |TrimStart(s)| + |Strip(s)|]
  {
  }

  /** Stripping a stripped text changes nothing. */
  lemma StripIdempotent(s: string)
    ensures Strip(Strip(s)) == Strip(s)
  {
    if Strip(s) != [] {
      StripUnchanged(Strip(s));
    }
  }

  /** `lstrip` removes whitespace only. */
  lemma {:induction false} TrimStartSpaces(s: string)
    ensures forall i :: 0 <= i < |s| - |TrimStart(s)| ==> IsSpace(s[i])
    decreases |s|
  {
    if s != [] && IsSpace(s[0]) {
      TrimStartSpaces(s[1..]);
      assert forall i :: 1 <= i < |s| ==> s[i] == s[1..][i - 1];
    }
  }

  /** `rstrip` removes whitespace only. */
  lemma {:induction false} TrimEndSpaces(s: string)
    ensures forall i :: |TrimEnd(s)| <= i < |s| ==> IsSpace(s[i])
    decreases |s|
  {
    if s != [] && IsSpace(s[|s| - 1]) {
      TrimEndSpaces(s[..|s| - 1]);
      assert forall i :: 0 <= i < |s| - 1 ==> s[i] == s[..|s| - 1][i];
    }
  }

  lemma StripUnchanged(s: string)
    requires s != [] && !IsSpace(s[0]) && !IsSpace(s[|s| - 1])
    ensures Strip(s) == s
  {
  }

  predicate OccursAt(s: string, pat: string, i: nat) { i + |pat| <= |s| && s[i..i + |pat|] == pat }

  /** The first index at or after `from` where `pat` occurs in `s`. */
  function FirstOccurrence(s: string, pat: string, from: nat): (r: Option<nat>)
    decreases |s| - from
    ensures r.Some? ==> from <= r.value && OccursAt(s, pat, r.value)
    ensures r.Some? ==> forall j :: from <= j < r.value ==> !OccursAt(s, pat, j)
    ensures r.None? ==> forall j :: from <= j ==> !OccursAt(s, pat, j)
  {
    if from + |pat| > |s| then None
    else if OccursAt(s, pat, from) then Some(from)
    else FirstOccurrence(s, pat, from + 1)
  }

  /** `pat in s` */
  predicate Contains(s: string, pat: string) { FirstOccurrence(s, pat, 0).Some? }

  /** `s.split(pat)[0]`: everything before the first occurrence of `pat` (all of `s` when there is none). */
  function BeforeFirst(s: string, pat: string): (r: string)
    ensures |r| <= |s| && r == s[..|r|]
    ensures forall j :: 0 <= j < |r| ==> !OccursAt(s, pat, j)
    ensures Contains(s, pat) ==> OccursAt(s, pat, |r|)
    ensures !Contains(s, pat) ==> r == s
  {
    match FirstOccurrence(s, pat, 0)
    case Some(i) => s[..i]
    case None => s
  }

  /** `s.split(pat, 1)[1]`: everything after the first occurrence of `pat` (empty when there is none). */
  function AfterFirst(s: string, pat: string): (r: string)
    ensures Contains(s, pat) ==> |BeforeFirst(s, pat)| + |pat| + |r| == |s| && r == s[|s| - |r|..]
    ensures !Contains(s, pat) ==> r == []
  {
    match FirstOccurrence(s, pat, 0)
    case Some(i) => s[i + |pat|..]
    case None => []
  }

  /** Splitting at the first `pat` and joining the two halves back with `pat` gives the text back. */
  lemma SplitFirstJoins(s: string, pat: string)
    requires Contains(s, pat)
    ensures BeforeFirst(s, pat) + pat + AfterFirst(s, pat) == s
  {
    var i := FirstOccurrence(s, pat, 0).value;
    assert s == s[..i] + s[i..i + |pat|] + s[i + |pat|..];
  }

  /** `s.startswith(p)` */
  predicate StartsWith(s: string, p: string) { |p| <= |s| && s[..|p|] == p }

  /** A text in which the character `c` does not occur is its own first part when split at `c`. */
  lemma {:induction false} BeforeAbsentChar(s: string, c: char)
    requires forall i :: 0 <= i < |s| ==> s[i] != c
    ensures BeforeFirst(s, [c]) == s
  {
    forall j: nat ensures !OccursAt(s, [c], j) {
      if j + 1 <= |s| {
        assert s[j..j + 1] == [s[j]];
      }
    }
  }

  /** The end of the run of digits that starts at `i`. */
  function DigitEnd(s: string, i: nat): (r: nat)
    requires i <= |s|
    decreases |s| - i
    ensures i <= r <= |s|
    ensures forall m :: i <= m < r ==> IsDigit(s[m])
    ensures r < |s| ==> !IsDigit(s[r])
  {
    if i < |s| && IsDigit(s[i]) then DigitEnd(s, i + 1) else i
  }

  /** The end of the run of whitespace that starts at `i`. */
  function SpaceEnd(s: string, i: nat): (r: nat)
    requires i <= |s|
    decreases |s| - i
    ensures i <= r <= |s|
    ensures forall m :: i <= m < r ==> IsSpace(s[m])
    ensures r < |s| ==> !IsSpace(s[r])
  {
    if i < |s| && IsSpace(s[i]) then SpaceEnd(s, i + 1) else i
  }

  /** The end of the run of non-whitespace that starts at `i`. */
  function WordEnd(s: string, i: nat): (r: nat)
    requires i <= |s|
    decreases |s| - i
    ensures i <= r <= |s|
    ensures forall m :: i <= m < r ==> !IsSpace(s[m])
    ensures i < |s| && !IsSpace(s[i]) ==> i < r
  {
    if i < |s| && !IsSpace(s[i]) then WordEnd(s, i + 1) else i
  }

  /** `s.split()`: the maximal runs of non-whitespace, in order. */
  function Words(s: string): seq<string>
    decreases |s|
  {
    var t := TrimStart(s);
    if t == [] then []
    else
      var k := WordEnd(t, 0);
      [t[..k]] + Words(t[k..])
  }

  /** The word that starts at `i` runs up to the first whitespace (or the end) at `j`. */
  lemma {:induction false} WordEndAt(s: string, i: nat, j: nat)
    requires i <= j <= |s|
    requires forall m :: i <= m < j ==> !IsSpace(s[m])
    requires j == |s| || IsSpace(s[j])
    ensures WordEnd(s, i) == j
    decreases j - i
  {
    if i < j {
      WordEndAt(s, i + 1, j);
    }
  }

  /** The run of digits that starts at `i` ends at the first non-digit (or the end) `j`. */
  lemma {:induction false} DigitEndAt(s: string, i: nat, j: nat)
    requires i <= j <= |s|
    requires forall m :: i <= m < j ==> IsDigit(s[m])
    requires j == |s| || !IsDigit(s[j])
    ensures DigitEnd(s, i) == j
    decreases j - i
  {
    if i < j {
      DigitEndAt(s, i + 1, j);
    }
  }

  /** The run of whitespace that starts at `i` ends at the first non-whitespace (or the end) `j`. */
  lemma {:induction false} SpaceEndAt(s: string, i: nat, j: nat)
    requires i <= j <= |s|
    requires forall m :: i <= m < j ==> IsSpace(s[m])
    requires j == |s| || !IsSpace(s[j])
    ensures SpaceEnd(s, i) == j
    decreases j - i
  {
    if i < j {
      SpaceEndAt(s, i + 1, j);
    }
  }

  predicate NoSpace(s: string) { forall i :: 0 <= i < |s| ==> !IsSpace(s[i]) }

  /** `split()` of a text that starts with a word: that word, then the split of the rest. */
  lemma {:induction false} WordsStep(s: string)
    requires s != [] && !IsSpace(s[0])
    ensures Words(s) == [s[..WordEnd(s, 0)]] + Words(s[WordEnd(s, 0)..])
  {
    assert TrimStart(s) == s;
  }

  /** Leading whitespace does not change `split()`. */
  lemma {:induction false} WordsAfterSpace(b: string)
    ensures Words(" " + b) == Words(b)
  {
    assert TrimStart(" " + b) == TrimStart((" " + b)[1..]);
    assert (" " + b)[1..] == b;
  }

  /** A word followed by nothing or by whitespace is the first word of the split. */
  lemma {:induction false} WordsOfLeadingWord(a: string, rest: string)
    requires a != [] && NoSpace(a)
    requires rest == [] || IsSpace(rest[0])
    ensures Words(a + rest) == [a] + Words(rest)
  {
    var t := a + rest;
    assert t[0] == a[0];
    assert forall m :: 0 <= m < |a| ==> t[m] == a[m];
    WordEndAt(t, 0, |a|);
    WordsStep(t);
    assert t[..|a|] == a;
    assert t[|a|..] == rest;
  }

  /** A single word splits into itself. */
  lemma {:induction false} WordsOfOne(a: string)
    requires a != [] && NoSpace(a)
    ensures Words(a) == [a]
  {
    WordsOfLeadingWord(a, []);
    assert a + [] == a;
  }

  lemma SuffixOfConcat(x: string, y: string)
    ensures (x + y)[|x|..] == y
  {
  }

  lemma ConcatAssoc(x: string, y: string, z: string)
    ensures x + y + z == x + (y + z)
  {
  }

  /** Every word of `split()` is non-empty and holds no whitespace. */
  lemma {:induction false} WordsAreRuns(s: string)
    ensures forall i :: 0 <= i < |Words(s)| ==> Words(s)[i] != [] && NoSpace(Words(s)[i])
    decreases |s|
  {
    var t := TrimStart(s);
    if t != [] {
      var k := WordEnd(t, 0);
      var w := t[..k];
      assert k > 0;
      assert NoSpace(w) by {
        forall m | 0 <= m < |w| ensures !IsSpace(w[m]) {
          assert w[m] == t[m];
        }
      }
      var rest := Words(t[k..]);
      WordsAreRuns(t[k..]);
      assert Words(s) == [w] + rest;
      forall i | 0 <= i < |Words(s)| ensures Words(s)[i] != [] && NoSpace(Words(s)[i]) {
        if i > 0 {
          assert Words(s)[i] == rest[i - 1];
        }
      }
    }
  }

  /** A space-free text, one space and any text split into the words of each side. */
  lemma {:induction false} WordsJoin(a: string, b: string)
    requires NoSpace(a)
    ensures Words(a + " " + b) == Words(a) + Words(b)
  {
    if a == [] {
      assert a + " " + b == " " + b;
      WordsAfterSpace(b);
      assert Words(a) == [];
    } else {
      WordsJoinWord(a, b);
      WordsOfOne(a);
    }
  }

  lemma {:induction false} WordsJoinWord(a: string, b: string)
    requires a != [] && NoSpace(a)
    ensures Words(a + " " + b) == [a] + Words(b)
  {
    var rest := " " + b;
    assert rest[0] == ' ';
    WordsOfLeadingWord(a, rest);
    WordsAfterSpace(b);
    ConcatAssoc(a, " ", b);
  }

  /** Two words joined by one space split back into the two words. */
  lemma {:induction false} WordsOfTwo(a: string, b: string)
    requires a != [] && NoSpace(a) && b != [] && NoSpace(b)
    ensures Words(a + " " + b) == [a, b]
  {
    WordsJoin(a, b);
    WordsOfOne(a);
    WordsOfOne(b);
  }

  function DigitValue(c: char): nat
    requires IsDigit(c)
  {
    c as int - '0' as int
  }

  function DigitChar(d: nat): (c: char)
    requires d < 10
    ensures IsDigit(c) && DigitValue(c) == d
  {
    ('0' as int + d) as char
  }

  /** The value of a numeral in base ten. */
  function DigitsValue(s: string): nat
    requires AllDigits(s)
  {
    if s == [] then 0 else DigitsValue(s[..|s| - 1]) * 10 + DigitValue(s[|s| - 1])
  }

  /** `str(n)` for a natural number. */
  function NatToString(n: nat): (r: string)
    ensures r != [] && AllDigits(r)
  {
    if n < 10 then [DigitChar(n)] else NatToString(n / 10) + [DigitChar(n % 10)]
  }

  lemma {:induction false} NatToStringRoundTrip(n: nat)
    ensures DigitsValue(NatToString(n)) == n
  {
    if n >= 10 {
      var s := NatToString(n);
      assert s[..|s| - 1] == NatToString(n / 10);
      NatToStringRoundTrip(n / 10);
    }
  }

  /** `s.isdigit()` */
  predicate IsDigitText(s: string) { s != [] && AllDigits(s) }

  /** `int(s)`: optional sign and decimal digits around optional whitespace; `None` where Python raises. */
  function ParseInt(s: string): (r: Option<int>)
    ensures r.Some? ==> Strip(s) != [] && (r.value < 0 ==> Strip(s)[0] == '-')
    ensures IsDigitText(Strip(s)) ==> r == Some(DigitsValue(Strip(s)))
    ensures var t := Strip(s); r.Some? <==> (IsDigitText(t) || (|t| > 1 && (t[0] == '+' || t[0] == '-') && IsDigitText(t[1..])))
    ensures var t := Strip(s); |t| > 1 && t[0] == '-' && IsDigitText(t[1..]) ==> r == Some(-(DigitsValue(t[1..]) as int))
    ensures var t := Strip(s); |t| > 1 && t[0] == '+' && IsDigitText(t[1..]) ==> r == Some(DigitsValue(t[1..]))
  {
    var t := Strip(s);
    if t != [] && (t[0] == '+' || t[0] == '-') then
      if IsDigitText(t[1..]) then Some(if t[0] == '-' then -(DigitsValue(t[1..]) as int) else DigitsValue(t[1..]) as int) else None
    else if IsDigitText(t) then Some(DigitsValue(t))
    else None
  }

  /** A numeral holds no whitespace. */
  lemma {:induction false} NumeralNoSpace(n: nat)
    ensures NoSpace(NatToString(n))
  {
    var num := NatToString(n);
    forall i | 0 <= i < |num| ensures !IsSpace(num[i]) {
      assert IsDigit(num[i]);
    }
  }

  /** `int(s)` of a numeral is its value. */
  lemma {:induction false} ParseIntOfDigits(s: string)
    requires IsDigitText(s)
    ensures ParseInt(s) == Some(DigitsValue(s))
  {
    assert IsDigit(s[0]) && IsDigit(s[|s| - 1]);
    StripUnchanged(s);
  }

  /** `int(str(n))` gives `n` back. */
  lemma {:induction false} ParseIntOfNumeral(n: nat)
    ensures ParseInt(NatToString(n)) == Some(n)
  {
    ParseIntOfDigits(NatToString(n));
    NatToStringRoundTrip(n);
  }
}
