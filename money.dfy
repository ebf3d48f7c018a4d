/**
 * The bot's money arithmetic: reading amounts out of captions and bet texts, rounding to the
 * cent, converting CUP to USD, the referral commission, the bonus-first split of a USD cost and
 * the Georgia betting hours. Every sum is an integer number of cents of its currency.
 */
module Money {
  import opened Common
  import opened Text

  /** A sum of money in cents (USD or CUP, as the context says). */
  type Cents = int

  function Max(a: int, b: int): int { if a < b then b else a }

  /** `n / d` rounded to the nearest integer, halves upward. */
  function RoundDiv(n: int, d: int): (q: int)
    requires d > 0
    ensures -d <= 2 * (n - q * d) < d
  {
    var q := (2 * n + d) / (2 * d);
    assert 2 * n + d == q * (2 * d) + (2 * n + d) % (2 * d);
    q
  }

  // ---------------------------------------------------------------------------------------------
  // Decimal literals (`float(...)` on plain decimals)
  // ---------------------------------------------------------------------------------------------

  /** The cents of the fractional digits `f` of a literal `x.f`, rounded half up on the third digit. */
  function FractionCents(f: string): (c: nat)
    requires AllDigits(f)
    ensures c <= 100
  {
    var d1 := if |f| > 0 then DigitValue(f[0]) else 0;
    var d2 := if |f| > 1 then DigitValue(f[1]) else 0;
    var up := if |f| > 2 && DigitValue(f[2]) >= 5 then 1 else 0;
    d1 * 10 + d2 + up
  }

  /** An unsigned decimal literal (`12`, `12.`, `12.5`, `.5`) in cents; `None` for anything else. */
  function UnsignedCents(s: string): Option<nat>
  {
    var k := DigitEnd(s, 0);
    if k == |s| then
      if k == 0 then None else Some(DigitsValue(s[..k]) * 100)
    else if s[k] == '.' && AllDigits(s[k + 1..]) && (k > 0 || k + 1 < |s|) then
      Some(DigitsValue(s[..k]) * 100 + FractionCents(s[k + 1..]))
    else None
  }

  /** `float(s)` for a plain decimal literal with optional sign and surrounding whitespace, in cents;
      `None` where Python raises. */
  function DecimalCents(s: string): Option<Cents>
  {
    SignedCents(Strip(s))
  }

  /** A stripped decimal literal with an optional leading `+` or `-`, in cents. */
  function SignedCents(t: string): Option<Cents>
  {
    if t != [] && (t[0] == '+' || t[0] == '-') then
      match UnsignedCents(t[1..])
      case None => None
      case Some(v) => Some(if t[0] == '-' then -(v as int) else v as int)
    else
      match UnsignedCents(t)
      case None => None
      case Some(v) => Some(v as int)
  }

  /** `f"{x:.2f}"` for a non-negative amount, as the bot prints balances and costs. */
  function FormatCents(c: nat): string
  {
    NatToString(c / 100) + "." + [DigitChar(c % 100 / 10), DigitChar(c % 10)]
  }

  lemma {:induction false} DigitEndAfterNumeral(s: string, i: nat, n: string)
    requires i + |n| <= |s| && s[i..i + |n|] == n && AllDigits(n)
    requires i + |n| < |s| && !IsDigit(s[i + |n|])
    ensures DigitEnd(s, i) == i + |n|
  {
    forall m | i <= m < i + |n| ensures IsDigit(s[m]) {
      assert s[m] == s[i..i + |n|][m - i];
    }
    DigitEndAt(s, i, i + |n|);
  }

  lemma {:induction false} FormatCentsParses(c: nat)
    ensures UnsignedCents(FormatCents(c)) == Some(c)
    ensures DecimalCents(FormatCents(c)) == Some(c)
  {
    FormatCentsUnsigned(c);
    var s := FormatCents(c);
    assert s[0] == NatToString(c / 100)[0];
    assert Strip(s) == s by {
      StripUnchanged(s);
    }
  }

  lemma {:induction false} FormatCentsUnsigned(c: nat)
    ensures UnsignedCents(FormatCents(c)) == Some(c)
  {
    var n := NatToString(c / 100);
    var f := [DigitChar(c % 100 / 10), DigitChar(c % 10)];
    var s := FormatCents(c);
    assert s == n + "." + f;
    DigitEndAfterNumeral(s, 0, n);
    assert s[..|n|] == n;
    assert s[|n| + 1..] == f;
    NatToStringRoundTrip(c / 100);
  }

  /** `float` only looks at the stripped text. */
  lemma {:induction false} DecimalCentsOfStripped(x: string, y: string)
    requires Strip(x) == Strip(y)
    ensures DecimalCents(x) == DecimalCents(y)
  {
  }

  /** `float(str(n))` and `float("-" + str(n))`, in cents. */
  lemma {:induction false} DecimalCentsOfNumeral(n: nat)
    ensures DecimalCents(NatToString(n)) == Some(100 * n)
    ensures DecimalCents("-" + NatToString(n)) == Some(-100 * n)
  {
    NatToStringRoundTrip(n);
    DecimalCentsOfDigits(NatToString(n));
  }

  lemma {:induction false} DecimalCentsOfDigits(num: string)
    requires num != [] && AllDigits(num)
    ensures DecimalCents(num) == Some(100 * DigitsValue(num))
    ensures DecimalCents("-" + num) == Some(-100 * DigitsValue(num))
  {
    NumeralCents(num);
    SignedNumeralCents(num, 100 * DigitsValue(num));
  }

  lemma {:induction false} SignedNumeralCents(num: string, v: nat)
    requires num != [] && AllDigits(num) && UnsignedCents(num) == Some(v)
    ensures DecimalCents(num) == Some(v) && DecimalCents("-" + num) == Some(-(v as int))
  {
    PositiveNumeralCents(num, v);
    NegativeNumeralCents(num, v);
  }

  lemma {:induction false} PositiveNumeralCents(num: string, v: nat)
    requires num != [] && AllDigits(num) && UnsignedCents(num) == Some(v)
    ensures DecimalCents(num) == Some(v)
  {
    NumeralStripped(num);
    assert IsDigit(num[0]);
    UnsignedReading(num, v);
  }

  lemma {:induction false} NegativeNumeralCents(num: string, v: nat)
    requires num != [] && AllDigits(num) && UnsignedCents(num) == Some(v)
    ensures DecimalCents("-" + num) == Some(-(v as int))
  {
    NegativeNumeralSign(num);
    NegativeReading("-" + num, v);
    NegativeNumeralStripped(num);
  }

  lemma UnsignedReading(t: string, v: nat)
    requires t != [] && IsDigit(t[0]) && UnsignedCents(t) == Some(v)
    ensures SignedCents(t) == Some(v)
  {
  }

  lemma NegativeReading(t: string, v: nat)
    requires t != [] && t[0] == '-' && UnsignedCents(t[1..]) == Some(v)
    ensures SignedCents(t) == Some(-(v as int))
  {
  }

  /** A numeral, signed or not, has no whitespace to strip. */
  lemma {:induction false} NumeralStripped(num: string)
    requires num != [] && AllDigits(num)
    ensures Strip(num) == num
  {
    assert IsDigit(num[0]) && IsDigit(num[|num| - 1]);
    StripUnchanged(num);
  }

  lemma {:induction false} NegativeNumeralStripped(num: string)
    requires num != [] && AllDigits(num)
    ensures Strip("-" + num) == "-" + num
  {
    var neg := "-" + num;
    assert neg[|neg| - 1] == num[|num| - 1];
    StripUnchanged(neg);
  }

  lemma {:induction false} NegativeNumeralSign(num: string)
    requires num != [] && AllDigits(num)
    ensures IsDigit(num[0]) && ("-" + num)[0] == '-' && ("-" + num)[1..] == num
  {
    var neg := "-" + num;
    assert neg[1..] == num;
  }

  predicate NoDigits(s: string) { forall i :: 0 <= i < |s| ==> !IsDigit(s[i]) }

  lemma {:induction false} UnsignedCentsNeedsDigit(s: string)
    requires NoDigits(s)
    ensures UnsignedCents(s).None?
  {
    if |s| > 1 {
      assert s[1..][0] == s[1];
    }
  }

  /** `float` of a text without a digit raises. */
  lemma {:induction false} DecimalCentsNeedsDigit(s: string)
    requires NoDigits(s)
    ensures DecimalCents(s).None?
  {
    var t := Strip(s);
    assert NoDigits(t);
    UnsignedCentsNeedsDigit(t);
    if t != [] {
      assert NoDigits(t[1..]) by {
        forall i | 0 <= i < |t| - 1 ensures !IsDigit(t[1..][i]) {
          assert t[1..][i] == t[i + 1];
        }
      }
      UnsignedCentsNeedsDigit(t[1..]);
    }
  }

  // ---------------------------------------------------------------------------------------------
  // parse_amount
  // ---------------------------------------------------------------------------------------------

  /** The two amounts a deposit caption names. */
  datatype Amount = Amount(usd: Cents, cup: Cents)

  /** A caption as `parse_amount` normalises it: lower case, `,` read as `.`, whitespace stripped. */
  function Caption(text: string): string { Strip(CommaToDot(Lower(text))) }

  /** A caption is lower case, has its commas turned into dots and no whitespace at either end. */
  lemma {:induction false} CaptionNormalised(text: string)
    ensures var c := Caption(text);
            |c| <= |text| && (c == [] || (!IsSpace(c[0]) && !IsSpace(c[|c| - 1]))) &&
            forall i :: 0 <= i < |c| ==> c[i] != ',' && !('A' <= c[i] <= 'Z')
  {
    var u := CommaToDot(Lower(text));
    var c := Strip(u);
    StripIsSlice(u);
    var k := |u| - |TrimStart(u)|;
    forall i | 0 <= i < |c| ensures c[i] != ',' && !('A' <= c[i] <= 'Z') {
      assert c[i] == u[k + i];
    }
  }

  /** `parse_amount`: the number before the first `usd` goes to USD; failing that, the number before
      the first `cup` goes to CUP; failing that, the whole caption is read as a USD number. Text that
      does not read as a number gives (0, 0). */
  function ParseAmount(text: string): (r: Amount)
    ensures r.usd == 0 || r.cup == 0
    ensures r.cup != 0 ==> !Contains(Caption(text), "usd") && Contains(Caption(text), "cup")
    ensures Contains(Caption(text), "usd") ==> r.cup == 0
  {
    var t := Caption(text);
    if Contains(t, "usd") then Amount(DecimalCents(BeforeFirst(t, "usd")).GetOr(0), 0)
    else if Contains(t, "cup") then Amount(0, DecimalCents(BeforeFirst(t, "cup")).GetOr(0))
    else Amount(DecimalCents(t).GetOr(0), 0)
  }

  function CurrencyName(c: Currency): string
  {
    match c
    case Usd => "usd"
    case Cup => "cup"
  }

  lemma CurrencyLettersOf(cur: Currency)
    ensures |CurrencyName(cur)| == 3 && forall i :: 0 <= i < 3 ==> 'a' <= CurrencyName(cur)[i] <= 'z'
  {
  }

  lemma LowerOfLowercase(s: string)
    requires forall i :: 0 <= i < |s| ==> !('A' <= s[i] <= 'Z')
    ensures Lower(s) == s
  {
  }

  lemma LowerConcat(a: string, b: string)
    ensures Lower(a + b) == Lower(a) + Lower(b)
  {
  }

  lemma CommaToDotConcat(a: string, b: string)
    ensures CommaToDot(a + b) == CommaToDot(a) + CommaToDot(b)
  {
  }

  /** A text without letters, commas or whitespace, such as a signed decimal number: the caption's
      normalisation leaves it alone, and no currency name starts inside it. */
  predicate Plain(f: string)
  {
    forall i :: 0 <= i < |f| ==> !('a' <= f[i] <= 'z') && !('A' <= f[i] <= 'Z') && f[i] != ',' && !IsSpace(f[i])
  }

  lemma {:induction false} FormatCentsPlain(c: nat)
    ensures FormatCents(c) != [] && Plain(FormatCents(c))
  {
    var f := FormatCents(c);
    var n := NatToString(c / 100);
    assert f == n + "." + [DigitChar(c % 100 / 10), DigitChar(c % 10)];
    forall i | 0 <= i < |f| ensures IsDigit(f[i]) || f[i] == '.' {
      if i < |n| { assert f[i] == n[i]; }
    }
  }

  lemma {:induction false} NumeralPlain(n: nat)
    ensures Plain(NatToString(n)) && Plain("-" + NatToString(n))
  {
    var num := NatToString(n);
    assert forall i :: 0 <= i < |num| ==> IsDigit(num[i]);
    var neg := "-" + num;
    forall i | 0 <= i < |neg| ensures neg[i] == '-' || IsDigit(neg[i]) {
      if i > 0 { assert neg[i] == num[i - 1]; }
    }
  }

  /** Lower-casing, reading ',' as '.' and stripping leave a plain text unchanged. */
  lemma {:induction false} CaptionUnchanged(s: string)
    requires s != [] && Plain(s)
    ensures Caption(s) == s
  {
    LowerOfLowercase(s);
    assert CommaToDot(s) == s;
    StripUnchanged(s);
  }

  /** Stripping the end of `x + y` only touches `y` when `x` ends in a non-space. */
  lemma {:induction false} TrimEndAfter(x: string, y: string)
    requires x != [] && !IsSpace(x[|x| - 1])
    ensures TrimEnd(x + y) == x + TrimEnd(y)
    decreases |y|
  {
    if y == [] {
      assert x + y == x;
    } else if IsSpace(y[|y| - 1]) {
      assert (x + y)[..|x + y| - 1] == x + y[..|y| - 1];
      TrimEndAfter(x, y[..|y| - 1]);
    } else {
      assert (x + y)[|x + y| - 1] == y[|y| - 1];
    }
  }

  /** The caption of `<f> <currency><rest>` with `f` plain: the normalisation only touches `rest`. */
  lemma {:induction false} CaptionOfTagged(f: string, cur: Currency, rest: string)
    requires f != [] && Plain(f)
    ensures Caption(f + " " + CurrencyName(cur) + rest) == f + " " + CurrencyName(cur) + TrimEnd(CommaToDot(Lower(rest)))
  {
    var x := f + " " + CurrencyName(cur);
    TaggedPrefixUnchanged(f, cur);
    var s := x + rest;
    var y := CommaToDot(Lower(rest));
    assert CommaToDot(Lower(s)) == x + y by {
      LowerConcat(x, rest);
      CommaToDotConcat(x, Lower(rest));
    }
    assert TrimStart(x + y) == x + y by {
      assert (x + y)[0] == f[0];
    }
    TrimEndAfter(x, y);
  }

  /** `<f> <currency>` with `f` plain is left alone by lower-casing and by reading ',' as '.'. */
  lemma {:induction false} TaggedPrefixUnchanged(f: string, cur: Currency)
    requires f != [] && Plain(f)
    ensures var x := f + " " + CurrencyName(cur);
            Lower(x) == x && CommaToDot(x) == x && x[0] == f[0] && !IsSpace(x[|x| - 1])
  {
    var name := CurrencyName(cur);
    CurrencyLettersOf(cur);
    var x := f + " " + name;
    forall i | 0 <= i < |x| ensures !('A' <= x[i] <= 'Z') && x[i] != ',' {
      if i < |f| { assert x[i] == f[i]; } else if i > |f| { assert x[i] == name[i - |f| - 1]; }
    }
    LowerOfLowercase(x);
    assert CommaToDot(x) == x;
    assert x[|x| - 1] == name[2];
  }

  /** A word that starts with a letter does not begin inside a plain text or at the space after it. */
  lemma {:induction false} NoLetterInNumber(f: string, s: string, pat: string)
    requires Plain(f) && |f| < |s| && s[..|f| + 1] == f + " "
    requires pat != [] && 'a' <= pat[0] <= 'z'
    ensures forall j :: 0 <= j < |f| + 1 ==> !OccursAt(s, pat, j)
  {
    forall j | 0 <= j < |f| + 1 ensures !OccursAt(s, pat, j) {
      assert s[j] == (f + " ")[j];
      if j < |f| { assert s[j] == f[j]; }
      if j + |pat| <= |s| {
        assert s[j..j + |pat|][0] == s[j];
      }
    }
  }

  /** In `<f> <currency><rest>` with `f` plain, the first currency name is the one right after `f`. */
  lemma {:induction false} FirstNameAfterNumber(f: string, cur: Currency, rest: string)
    requires Plain(f)
    ensures var s := f + " " + CurrencyName(cur) + rest;
            FirstOccurrence(s, CurrencyName(cur), 0) == Some(|f| + 1) && s[..|f| + 1] == f + " "
  {
    var name := CurrencyName(cur);
    var s := f + " " + name + rest;
    assert OccursAt(s, name, |f| + 1) by {
      assert s[|f| + 1..|f| + 4] == name;
    }
    assert s[..|f| + 1] == f + " ";
    NoLetterInNumber(f, s, name);
  }

  /** `<f> cup` with `f` plain names no `usd`. */
  lemma {:induction false} NoUsdBeforeCup(f: string)
    requires Plain(f)
    ensures !Contains(f + " cup", "usd")
  {
    var s := f + " cup";
    assert s[..|f| + 1] == f + " ";
    NoLetterInNumber(f, s, "usd");
    assert !OccursAt(s, "usd", |f| + 1) by {
      assert s[|f| + 1..] == "cup";
    }
  }

  lemma {:induction false} StripTrailingSpace(f: string)
    requires f != [] && !IsSpace(f[0]) && !IsSpace(f[|f| - 1])
    ensures Strip(f + " ") == f
  {
    assert (f + " ")[0] == f[0];
    assert TrimStart(f + " ") == f + " ";
    assert (f + " ")[..|f|] == f;
    assert TrimEnd(f) == f;
  }

  /** `float(f + " ")` is `float(f)`. */
  lemma {:induction false} DecimalCentsBeforeName(f: string)
    requires f != [] && Plain(f)
    ensures DecimalCents(f + " ") == DecimalCents(f)
  {
    StripTrailingSpace(f);
    StripUnchanged(f);
    DecimalCentsOfStripped(f + " ", f);
  }

  /** The first `usd` decides: a caption that starts with a number and `usd` deposits that number in
      USD, whatever follows (another `usd` or `cup` amount included). */
  lemma {:induction false} ParseAmountFirstUsd(f: string, v: Cents, rest: string)
    requires f != [] && Plain(f) && DecimalCents(f) == Some(v)
    ensures ParseAmount(f + " usd" + rest) == Amount(v, 0)
  {
    UsdCaption(f, rest);
    TaggedNumber(f + " usd" + rest, f, Usd, TrimEnd(CommaToDot(Lower(rest))));
  }

  /** A number followed by `cup` deposits that number in CUP. */
  lemma {:induction false} ParseAmountCup(f: string, v: Cents)
    requires f != [] && Plain(f) && DecimalCents(f) == Some(v)
    ensures ParseAmount(f + " cup") == Amount(0, v)
  {
    CupCaption(f);
    TaggedNumber(f + " cup", f, Cup, []);
  }

  lemma {:induction false} UsdCaption(f: string, rest: string)
    requires f != [] && Plain(f)
    ensures Caption(f + " usd" + rest) == f + " " + CurrencyName(Usd) + TrimEnd(CommaToDot(Lower(rest)))
  {
    SpacedName(f, Usd);
    CaptionOfTagged(f, Usd, rest);
  }

  lemma {:induction false} CupCaption(f: string)
    requires f != [] && Plain(f)
    ensures Caption(f + " cup") == f + " " + CurrencyName(Cup) + []
    ensures !Contains(Caption(f + " cup"), "usd")
  {
    var s := f + " cup";
    var x := f + " " + CurrencyName(Cup);
    SpacedName(f, Cup);
    assert x == s;
    var e: string := [];
    assert x + e == x;
    CaptionOfTagged(f, Cup, e);
    assert TrimEnd(CommaToDot(Lower(e))) == e;
    NoUsdBeforeCup(f);
  }

  lemma SpacedName(f: string, cur: Currency)
    ensures f + " " + CurrencyName(cur) == f + (if cur == Usd then " usd" else " cup")
  {
    ConcatAssoc(f, " ", CurrencyName(cur));
  }

  /** A caption that reads `<f> <currency><r>`, with `f` plain and no `usd` before a `cup`, deposits
      `float(f)` in that currency. */
  lemma {:induction false} TaggedNumber(text: string, f: string, cur: Currency, r: string)
    requires f != [] && Plain(f) && DecimalCents(f).Some?
    requires Caption(text) == f + " " + CurrencyName(cur) + r
    requires cur == Cup ==> !Contains(Caption(text), "usd")
    ensures ParseAmount(text) == if cur == Usd then Amount(DecimalCents(f).value, 0) else Amount(0, DecimalCents(f).value)
  {
    var c := Caption(text);
    var name := CurrencyName(cur);
    FirstNameAfterNumber(f, cur, r);
    assert Contains(c, name);
    assert BeforeFirst(c, name) == f + " ";
    DecimalCentsBeforeName(f);
  }

  /** A number with no currency name deposits that number in USD. */
  lemma {:induction false} ParseAmountBare(f: string, v: Cents)
    requires f != [] && Plain(f) && DecimalCents(f) == Some(v)
    ensures ParseAmount(f) == Amount(v, 0)
  {
    CaptionUnchanged(f);
    NoNameInPlain(f, "usd");
    NoNameInPlain(f, "cup");
  }

  /** No word that starts with a letter occurs in a plain text. */
  lemma {:induction false} NoNameInPlain(f: string, pat: string)
    requires Plain(f) && pat != [] && 'a' <= pat[0] <= 'z'
    ensures !Contains(f, pat)
  {
    forall j | 0 <= j ensures !OccursAt(f, pat, j) {
      if j + |pat| <= |f| { assert f[j] == f[j..j + |pat|][0]; }
    }
  }

  /** A price written as the bot itself writes it reads back as the same price, in either currency,
      and a bare number reads back as USD: `parse_amount(f"{x:.2f} usd") == (x, 0)`. */
  lemma {:induction false} ParseAmountRoundTrip(c: nat)
    ensures ParseAmount(FormatCents(c) + " usd") == Amount(c, 0)
    ensures ParseAmount(FormatCents(c) + " cup") == Amount(0, c)
    ensures ParseAmount(FormatCents(c)) == Amount(c, 0)
  {
    var f := FormatCents(c);
    FormatCentsPlain(c);
    FormatCentsParses(c);
    ParseAmountFirstUsd(f, c, []);
    assert f + " usd" + [] == f + " usd";
    ParseAmountCup(f, c);
    ParseAmountBare(f, c);
  }

  /** Whole numbers: `<n> usd`, `<n> cup` and `<n>` read as `n` units, and a minus sign is accepted,
      so `-<n> usd` reads as a negative USD amount. */
  lemma {:induction false} ParseAmountWholeNumbers(n: nat)
    ensures ParseAmount(NatToString(n) + " usd") == Amount(100 * n, 0)
    ensures ParseAmount(NatToString(n) + " cup") == Amount(0, 100 * n)
    ensures ParseAmount(NatToString(n)) == Amount(100 * n, 0)
    ensures ParseAmount("-" + NatToString(n) + " usd") == Amount(-100 * n, 0)
  {
    var num := NatToString(n);
    NumeralPlain(n);
    DecimalCentsOfNumeral(n);
    ParseAmountFirstUsd(num, 100 * n, []);
    assert num + " usd" + [] == num + " usd";
    ParseAmountCup(num, 100 * n);
    ParseAmountBare(num, 100 * n);
    ParseAmountFirstUsd("-" + num, -100 * n, []);
    assert "-" + num + " usd" + [] == "-" + num + " usd";
  }

  /** Captions as users write them. `-5 usd` is read as minus five dollars. */
  lemma ExampleTenUsd()
    ensures ParseAmount("10 usd") == Amount(1000, 0)
  {
    ExampleNumerals();
    WholeNumberCaption("10 usd", false, 10, "10", " usd");
  }

  lemma ExampleFiveHundredCup()
    ensures ParseAmount("500 cup") == Amount(0, 50000)
  {
    ExampleNumerals();
    WholeNumberCaption("500 cup", false, 500, "500", " cup");
  }

  lemma ExampleSeven()
    ensures ParseAmount("7") == Amount(700, 0)
  {
    ExampleNumerals();
    WholeNumberCaption("7", false, 7, "7", "");
  }

  lemma ExampleMinusFiveUsd()
    ensures ParseAmount("-5 usd") == Amount(-500, 0)
  {
    ExampleNumerals();
    WholeNumberCaption("-5 usd", true, 5, "5", " usd");
  }

  /** The numerals of the example captions. */
  lemma ExampleNumerals()
    ensures NatToString(10) == "10" && NatToString(500) == "500"
    ensures NatToString(7) == "7" && NatToString(5) == "5"
  {
    assert NatToString(1) == "1";
    assert NatToString(50) == NatToString(5) + "0";
  }

  /** A whole number, possibly negative, alone or followed by one currency name. */
  lemma {:induction false} WholeNumberCaption(s: string, negative: bool, n: nat, num: string, tail: string)
    requires NatToString(n) == num
    requires tail == " usd" || tail == " cup" || tail == ""
    requires s == (if negative then "-" + num else num) + tail
    ensures var v := if negative then -100 * n else 100 * n;
      ParseAmount(s) == if tail == " cup" then Amount(0, v) else Amount(v, 0)
  {
    NumeralPlain(n);
    DecimalCentsOfNumeral(n);
    var f := if negative then "-" + num else num;
    var v := if negative then -100 * n else 100 * n;
    if tail == " usd" {
      ParseAmountFirstUsd(f, v, []);
      assert s == f + " usd" + [];
    } else if tail == " cup" {
      ParseAmountCup(f, v);
    } else {
      ParseAmountBare(f, v);
      assert s == f;
    }
  }

  lemma {:induction false} NoDigitsCaption(text: string)
    requires NoDigits(text)
    ensures NoDigits(Caption(text))
  {
    var l := Lower(text);
    assert NoDigits(l) by {
      forall i | 0 <= i < |l| ensures !IsDigit(l[i]) {
        assert l[i] == LowerChar(text[i]);
      }
    }
    assert NoDigits(CommaToDot(l));
    NoDigitsStrip(CommaToDot(l));
  }

  lemma {:induction false} NoDigitsStrip(c: string)
    requires NoDigits(c)
    ensures NoDigits(Strip(c))
  {
    var t := TrimStart(c);
    assert NoDigits(t) by {
      forall i | 0 <= i < |t| ensures !IsDigit(t[i]) {
        assert t[i] == c[|c| - |t| + i];
      }
    }
    var r := TrimEnd(t);
    forall i | 0 <= i < |r| ensures !IsDigit(r[i]) {
      assert r[i] == t[i];
    }
  }

  lemma {:induction false} NoDigitsBefore(t: string, pat: string)
    requires NoDigits(t)
    ensures NoDigits(BeforeFirst(t, pat))
  {
    var b := BeforeFirst(t, pat);
    forall i | 0 <= i < |b| ensures !IsDigit(b[i]) {
      assert b[i] == t[i];
    }
  }

  /** A caption without a single digit deposits nothing: `float` fails, and `parse_amount` falls
      back to (0, 0). */
  lemma {:induction false} ParseAmountWithoutDigits(text: string)
    requires NoDigits(text)
    ensures ParseAmount(text) == Amount(0, 0)
  {
    var t := Caption(text);
    NoDigitsCaption(text);
    NoDigitsBefore(t, "usd");
    NoDigitsBefore(t, "cup");
    DecimalCentsNeedsDigit(t);
    DecimalCentsNeedsDigit(BeforeFirst(t, "usd"));
    DecimalCentsNeedsDigit(BeforeFirst(t, "cup"));
  }

  // ---------------------------------------------------------------------------------------------
  // parse_bet_and_cost
  // ---------------------------------------------------------------------------------------------

  datatype Currency = Usd | Cup

  /** A default price of a bet type, `{cup, usd}` in `play_prices`. */
  datatype Price = Price(cup: Cents, usd: Cents)

  /** One match of the pattern `(\d+(?:\.\d+)?)\s*(usd|cup)`: where it ends, its number in cents
      and its currency. */
  datatype PriceTag = PriceTag(end: nat, value: Cents, currency: Currency)

  /** The end of the number `\d+(?:\.\d+)?` that starts at `i`: its digits, and a fraction when a
      '.' followed by a digit comes next. */
  function NumberEnd(s: string, i: nat): (k: nat)
    requires i <= |s|
    ensures DigitEnd(s, i) <= k <= |s|
    ensures k > DigitEnd(s, i) ==> s[DigitEnd(s, i)] == '.' && forall m :: DigitEnd(s, i) < m < k ==> IsDigit(s[m])
  {
    var j := DigitEnd(s, i);
    if j + 1 < |s| && s[j] == '.' && IsDigit(s[j + 1]) then DigitEnd(s, j + 1) else j
  }

  /** The match of the price pattern that starts at `i`, if any. The pattern never needs to
      backtrack, so its longest reading is its only one. */
  function TagAt(s: string, i: nat): (r: Option<PriceTag>)
    requires i <= |s|
    ensures r.Some? ==> i < r.value.end <= |s|
  {
    if DigitEnd(s, i) == i then None
    else
      var k := NumberEnd(s, i);
      var w := SpaceEnd(s, k);
      var value := UnsignedCents(s[i..k]).GetOr(0);
      if OccursAt(s, "usd", w) then Some(PriceTag(w + 3, value, Usd))
      else if OccursAt(s, "cup", w) then Some(PriceTag(w + 3, value, Cup))
      else None
  }

  /** The last match `re.findall` finds when it scans `s` from `i` onward, resuming after each
      match; `last` is the last match found before `i`. */
  function LastTagFrom(s: string, i: nat, last: Option<PriceTag>): Option<PriceTag>
    requires i <= |s|
    decreases |s| - i
  {
    if i == |s| then last
    else
      match TagAt(s, i)
      case Some(t) => LastTagFrom(s, t.end, Some(t))
      case None => LastTagFrom(s, i + 1, last)
  }

  function LastTag(s: string): Option<PriceTag> { LastTagFrom(s, 0, None) }

  /** The result of `parse_bet_and_cost`: `(ok, usd_cost, cup_cost)`. */
  datatype BetCost = BetCost(ok: bool, usd: Cents, cup: Cents)

  /** `parse_bet_and_cost`: the last currency-tagged number of the lower-cased text is the cost; a text
      without one costs the default price of its bet type (nothing when the type has no price); the
      result is not ok, with both costs zero, exactly when both costs come out zero. */
  function ParseBetCost(raw: string, betType: string, prices: map<string, Price>): (r: BetCost)
    ensures r.ok <==> r.usd != 0 || r.cup != 0
    ensures LastTag(Lower(raw)).Some? ==>
              var t := LastTag(Lower(raw)).value;
              r == if t.value == 0 then BetCost(false, 0, 0)
                   else if t.currency == Usd then BetCost(true, t.value, 0)
                   else BetCost(true, 0, t.value)
    ensures LastTag(Lower(raw)).None? && betType in prices ==>
              var price := prices[betType];
              r == if price.usd == 0 && price.cup == 0 then BetCost(false, 0, 0)
                   else BetCost(true, price.usd, price.cup)
    ensures LastTag(Lower(raw)).None? && betType !in prices ==> r == BetCost(false, 0, 0)
  {
    var (usd, cup) :=
      match LastTag(Lower(raw))
      case Some(t) => if t.currency == Usd then (t.value, 0) else (0, t.value)
      case None => if betType in prices then (prices[betType].usd, prices[betType].cup) else (0, 0);
    if usd == 0 && cup == 0 then BetCost(false, 0, 0) else BetCost(true, usd, cup)
  }

  /** A match that starts before position `p` ends by `p` when the character before `p` cannot
      continue a price (it is neither a digit nor a '.') and a digit stands at `p`. */
  lemma {:induction false} TagEndsBefore(s: string, p: nat, i: nat)
    requires i < p < |s| && IsDigit(s[p])
    requires !IsDigit(s[p - 1]) && s[p - 1] != '.'
    ensures TagAt(s, i).Some? ==> TagAt(s, i).value.end <= p
  {
    var r := TagAt(s, i);
    if r.Some? {
      var k := NumberEnd(s, i);
      var w := SpaceEnd(s, k);
      NumberEndsBefore(s, p, i);
      assert r.value.end == w + 3;
      assert w <= p;
      CurrencyLetters(s, w);
    }
  }

  /** A currency name is three letters, none of them a digit. */
  lemma {:induction false} CurrencyLetters(s: string, w: nat)
    requires OccursAt(s, "usd", w) || OccursAt(s, "cup", w)
    ensures w + 3 <= |s| && !IsDigit(s[w]) && !IsDigit(s[w + 1]) && !IsDigit(s[w + 2])
  {
    assert s[w] == s[w..w + 3][0] && s[w + 1] == s[w..w + 3][1] && s[w + 2] == s[w..w + 3][2];
  }

  lemma {:induction false} NumberEndsBefore(s: string, p: nat, i: nat)
    requires i < p < |s|
    requires !IsDigit(s[p - 1]) && s[p - 1] != '.'
    ensures NumberEnd(s, i) < p
  {
    assert DigitEnd(s, i) <= p - 1;
  }

  /** Scanning from before `p` reaches `p` and so ends with what the scan from `p` finds, when a
      match starts at `p` and no earlier match can run past it. */
  lemma {:induction false} ScanReaches(s: string, p: nat, i: nat, last: Option<PriceTag>)
    requires i <= p < |s| && IsDigit(s[p]) && TagAt(s, p).Some?
    requires p > 0 ==> !IsDigit(s[p - 1]) && s[p - 1] != '.'
    ensures LastTagFrom(s, i, last) == LastTagFrom(s, TagAt(s, p).value.end, TagAt(s, p))
    decreases p - i
  {
    if i < p {
      TagEndsBefore(s, p, i);
      match TagAt(s, i)
      case Some(t) => ScanReaches(s, p, t.end, Some(t));
      case None => ScanReaches(s, p, i + 1, last);
    }
  }

  /** A match starts at a digit and ends with its currency's name. */
  lemma {:induction false} TagAtShape(s: string, i: nat)
    requires i <= |s| && TagAt(s, i).Some?
    ensures IsDigit(s[i]) && OccursAt(s, CurrencyName(TagAt(s, i).value.currency), TagAt(s, i).value.end - 3)
  {
  }

  /** What the scan returns is either the match it was given or a match found at or after `i`. */
  lemma {:induction false} LastTagIsMatch(s: string, i: nat, last: Option<PriceTag>)
    requires i <= |s|
    ensures var r := LastTagFrom(s, i, last);
            r.Some? ==> r == last || exists j :: i <= j < |s| && TagAt(s, j) == r
    decreases |s| - i
  {
    if i < |s| {
      var r := LastTagFrom(s, i, last);
      var here := TagAt(s, i);
      if here.Some? {
        assert r == LastTagFrom(s, here.value.end, here);
        LastTagIsMatch(s, here.value.end, here);
      } else {
        assert r == LastTagFrom(s, i + 1, last);
        LastTagIsMatch(s, i + 1, last);
      }
    }
  }

  /** The number `d` or `d.e` as the price pattern writes it (`e` empty: no fraction). */
  function Decimal(d: string, e: string): string
  {
    if e == [] then d else d + "." + e
  }

  /** A price as a bet text states it: a number, a run of whitespace (possibly none) and a currency. */
  function PriceText(d: string, e: string, sp: string, cur: Currency): string
  {
    Decimal(d, e) + sp + CurrencyName(cur)
  }

  /** The price stated last decides the cost: whatever the text before it says (numbers that look
      like prices included), a bet text that ends in `<d>[.<e>]<spaces>usd` or `...cup` costs exactly
      that number of that currency, and is refused when the number is zero. */
  lemma {:induction false} LastPriceWins(p: string, d: string, e: string, sp: string, cur: Currency,
                                         betType: string, prices: map<string, Price>)
    requires p != [] ==> !IsDigit(p[|p| - 1]) && p[|p| - 1] != '.'
    requires IsDigitText(d) && AllDigits(e) && AllSpace(sp)
    ensures var v := 100 * DigitsValue(d) + FractionCents(e);
            ParseBetCost(p + PriceText(d, e, sp, cur), betType, prices)
            == if v == 0 then BetCost(false, 0, 0)
               else if cur == Usd then BetCost(true, v, 0)
               else BetCost(true, 0, v)
  {
    LowerTrailingPrice(p, d, e, sp, cur);
    PriceIsLast(Lower(p), d, e, sp, cur);
    DecimalValue(d, e);
  }

  /** Lower-casing a bet text that ends in a price only touches the part before the price. */
  lemma {:induction false} LowerTrailingPrice(p: string, d: string, e: string, sp: string, cur: Currency)
    requires IsDigitText(d) && AllDigits(e) && AllSpace(sp)
    requires p != [] ==> !IsDigit(p[|p| - 1]) && p[|p| - 1] != '.'
    ensures Lower(p + PriceText(d, e, sp, cur)) == Lower(p) + PriceText(d, e, sp, cur)
    ensures Lower(p) != [] ==> !IsDigit(Lower(p)[|p| - 1]) && Lower(p)[|p| - 1] != '.'
  {
    var q := PriceText(d, e, sp, cur);
    LowerConcat(p, q);
    PriceTextLowercase(d, e, sp, cur);
    LowerOfLowercase(q);
  }

  /** A price has no upper-case letters. */
  lemma {:induction false} PriceTextLowercase(d: string, e: string, sp: string, cur: Currency)
    requires IsDigitText(d) && AllDigits(e) && AllSpace(sp)
    ensures forall i :: 0 <= i < |PriceText(d, e, sp, cur)| ==> !('A' <= PriceText(d, e, sp, cur)[i] <= 'Z')
  {
    var x := Decimal(d, e);
    var name := CurrencyName(cur);
    var q := x + sp + name;
    CurrencyLettersOf(cur);
    assert forall i :: 0 <= i < |x| ==> IsDigit(x[i]) || x[i] == '.' by {
      if e != [] {
        assert forall i :: |d| < i < |x| ==> x[i] == e[i - |d| - 1];
      }
    }
    forall i | 0 <= i < |q| ensures !('A' <= q[i] <= 'Z') {
      if i < |x| { assert q[i] == x[i]; }
      else if i < |x| + |sp| { assert q[i] == sp[i - |x|]; }
      else { assert q[i] == name[i - |x| - |sp|]; }
    }
  }

  /** The last match of a text that ends in a price is that price. */
  lemma {:induction false} PriceIsLast(lp: string, d: string, e: string, sp: string, cur: Currency)
    requires IsDigitText(d) && AllDigits(e) && AllSpace(sp)
    requires lp != [] ==> !IsDigit(lp[|lp| - 1]) && lp[|lp| - 1] != '.'
    ensures LastTag(lp + PriceText(d, e, sp, cur))
            == Some(PriceTag(|lp + PriceText(d, e, sp, cur)|, UnsignedCents(Decimal(d, e)).GetOr(0), cur))
  {
    TagAfter(lp, d, e, sp, cur);
    TrailingTagIsLast(lp, PriceText(d, e, sp, cur), UnsignedCents(Decimal(d, e)).GetOr(0), cur);
  }

  /** A price placed after `lp` is the match of the price pattern that starts right after `lp`. */
  lemma {:induction false} TagAfter(lp: string, d: string, e: string, sp: string, cur: Currency)
    requires IsDigitText(d) && AllDigits(e) && AllSpace(sp)
    ensures |lp| < |lp + PriceText(d, e, sp, cur)| && IsDigit((lp + PriceText(d, e, sp, cur))[|lp|])
    ensures TagAt(lp + PriceText(d, e, sp, cur), |lp|)
            == Some(PriceTag(|lp + PriceText(d, e, sp, cur)|, UnsignedCents(Decimal(d, e)).GetOr(0), cur))
  {
    SuffixOfConcat(lp, PriceText(d, e, sp, cur));
    TagOfPrice(lp + PriceText(d, e, sp, cur), |lp|, d, e, sp, cur);
  }

  /** A match that starts right after `lp` and runs to the end of the text is its last match, when
      `lp` does not end in a character that could continue a price. */
  lemma {:induction false} TrailingTagIsLast(lp: string, q: string, v: Cents, cur: Currency)
    requires lp != [] ==> !IsDigit(lp[|lp| - 1]) && lp[|lp| - 1] != '.'
    requires |lp| < |lp + q| && IsDigit((lp + q)[|lp|])
    requires TagAt(lp + q, |lp|) == Some(PriceTag(|lp + q|, v, cur))
    ensures LastTag(lp + q) == Some(PriceTag(|lp + q|, v, cur))
  {
    var s := lp + q;
    assert |lp| > 0 ==> s[|lp| - 1] == lp[|lp| - 1];
    ScanEndsWithTag(s, |lp|, v, cur);
  }

  /** When the match at `p` runs to the end of the text and nothing before `p` can run past it, it is
      the last match of the whole text. */
  lemma {:induction false} ScanEndsWithTag(s: string, p: nat, v: Cents, cur: Currency)
    requires p < |s| && IsDigit(s[p]) && TagAt(s, p) == Some(PriceTag(|s|, v, cur))
    requires p > 0 ==> !IsDigit(s[p - 1]) && s[p - 1] != '.'
    ensures LastTag(s) == Some(PriceTag(|s|, v, cur))
  {
    ScanReaches(s, p, 0, None);
  }

  /** A price is one match of the price pattern, worth its number in cents. */
  lemma {:induction false} TagOfPrice(s: string, at: nat, d: string, e: string, sp: string, cur: Currency)
    requires at <= |s| && s[at..] == PriceText(d, e, sp, cur)
    requires IsDigitText(d) && AllDigits(e) && AllSpace(sp)
    ensures at < |s| && IsDigit(s[at])
    ensures TagAt(s, at) == Some(PriceTag(|s|, UnsignedCents(Decimal(d, e)).GetOr(0), cur))
  {
    PriceLayout(s, at, d, e, sp, cur);
    assert UnsignedCents(Decimal(d, e)).Some? by { DecimalValue(d, e); }
    TagFound(s, at, Decimal(d, e), sp, cur);
  }

  /** Where a price's number, whitespace and currency name lie, as the price pattern sees them. */
  lemma {:induction false} PriceLayout(s: string, at: nat, d: string, e: string, sp: string, cur: Currency)
    requires at <= |s| && s[at..] == PriceText(d, e, sp, cur)
    requires IsDigitText(d) && AllDigits(e) && AllSpace(sp)
    ensures at < |s| && IsDigit(s[at]) && at < DigitEnd(s, at)
    ensures NumberEnd(s, at) == at + |Decimal(d, e)| && s[at..at + |Decimal(d, e)|] == Decimal(d, e)
    ensures SpaceEnd(s, at + |Decimal(d, e)|) == at + |Decimal(d, e)| + |sp|
    ensures at + |Decimal(d, e)| + |sp| + 3 == |s| && s[at + |Decimal(d, e)| + |sp|..] == CurrencyName(cur)
  {
    var x := Decimal(d, e);
    PriceSlices(s, at, x, sp, CurrencyName(cur));
    PriceSpacing(s, at + |x|, sp, cur);
    DecimalEnd(s, at, d, e);
  }

  /** The whitespace run of a price ends at its currency name; neither can continue its number. */
  lemma {:induction false} PriceSpacing(s: string, k: nat, sp: string, cur: Currency)
    requires AllSpace(sp) && k + |sp| + 3 == |s|
    requires s[k..k + |sp|] == sp && s[k + |sp|..] == CurrencyName(cur)
    ensures k < |s| && !IsDigit(s[k]) && s[k] != '.'
    ensures SpaceEnd(s, k) == k + |sp|
  {
    var w := k + |sp|;
    var name := CurrencyName(cur);
    CurrencyLettersOf(cur);
    assert s[w] == name[0];
    assert s[k] == if sp == [] then name[0] else sp[0];
    assert forall m :: k <= m < w ==> s[m] == sp[m - k];
    SpaceEndAt(s, k, w);
  }

  /** The match at `at` once its number `x`, its whitespace and its currency name have been found. */
  lemma TagFound(s: string, at: nat, x: string, sp: string, cur: Currency)
    requires at < |s| && at < DigitEnd(s, at)
    requires NumberEnd(s, at) == at + |x| && s[at..at + |x|] == x
    requires SpaceEnd(s, at + |x|) == at + |x| + |sp|
    requires at + |x| + |sp| + 3 == |s| && s[at + |x| + |sp|..] == CurrencyName(cur)
    requires UnsignedCents(x).Some?
    ensures TagAt(s, at) == Some(PriceTag(|s|, UnsignedCents(x).GetOr(0), cur))
  {
    var k := at + |x|;
    assert UnsignedCents(s[at..k]) == Some(UnsignedCents(x).GetOr(0));
    TagFromParts(s, at, k, k + |sp|, UnsignedCents(x).GetOr(0), cur);
  }

  lemma TagFromParts(s: string, at: nat, k: nat, w: nat, v: nat, cur: Currency)
    requires at <= |s| && at < DigitEnd(s, at)
    requires NumberEnd(s, at) == k && k <= w && SpaceEnd(s, k) == w
    requires w + 3 == |s| && s[w..] == CurrencyName(cur)
    requires UnsignedCents(s[at..k]) == Some(v)
    ensures TagAt(s, at) == Some(PriceTag(|s|, v, cur))
  {
    assert OccursAt(s, "usd", w) <==> cur == Usd;
    assert OccursAt(s, "cup", w) <==> cur == Cup;
  }

  /** Where the number, the whitespace and the currency name of a price lie. */
  lemma {:induction false} PriceSlices(s: string, at: nat, x: string, sp: string, name: string)
    requires at <= |s| && s[at..] == x + sp + name
    ensures at + |x| + |sp| + |name| == |s|
    ensures s[at..at + |x|] == x && s[at + |x|..at + |x| + |sp|] == sp && s[at + |x| + |sp|..] == name
  {
    var t := s[at..];
    assert s[at..at + |x|] == t[..|x|];
    assert s[at + |x|..at + |x| + |sp|] == t[|x|..|x| + |sp|];
    assert s[at + |x| + |sp|..] == t[|x| + |sp|..];
  }

  /** The number of a price ends where its decimal text ends. */
  lemma {:induction false} DecimalEnd(s: string, at: nat, d: string, e: string)
    requires IsDigitText(d) && AllDigits(e)
    requires at + |Decimal(d, e)| < |s| && s[at..at + |Decimal(d, e)|] == Decimal(d, e)
    requires !IsDigit(s[at + |Decimal(d, e)|]) && s[at + |Decimal(d, e)|] != '.'
    ensures DigitEnd(s, at) == at + |d|
    ensures NumberEnd(s, at) == at + |Decimal(d, e)|
  {
    var x := Decimal(d, e);
    var j := at + |d|;
    assert forall m :: at <= m < j ==> s[m] == x[m - at] == d[m - at];
    if e == [] {
      DigitEndAt(s, at, j);
    } else {
      var k := at + |x|;
      assert s[j] == x[|d|] == '.';
      assert forall m :: j < m < k ==> s[m] == x[m - at] == e[m - j - 1];
      DigitEndAt(s, at, j);
      DigitEndAt(s, j + 1, k);
    }
  }

  /** `float` of `d` or `d.e`, in cents. */
  lemma {:induction false} DecimalValue(d: string, e: string)
    requires IsDigitText(d) && AllDigits(e)
    ensures UnsignedCents(Decimal(d, e)) == Some(100 * DigitsValue(d) + FractionCents(e))
  {
    if e == [] {
      NumeralCents(d);
      assert FractionCents(e) == 0;
    } else {
      var x := Decimal(d, e);
      assert forall m :: 0 <= m < |d| ==> x[m] == d[m];
      assert x[|d|] == '.';
      DigitEndAt(x, 0, |d|);
      assert x[..|d|] == d && x[|d| + 1..] == e;
    }
  }

  /** A numeral read as an unsigned literal is its value in whole units. */
  lemma {:induction false} NumeralCents(num: string)
    requires num != [] && AllDigits(num)
    ensures UnsignedCents(num) == Some(100 * DigitsValue(num))
  {
    assert DigitEnd(num, 0) == |num|;
    assert num[..|num|] == num;
  }

  /** The bot's own example: the second of two USD prices is the one charged. */
  lemma LastPriceExample(prices: map<string, Price>)
    ensures ParseBetCost("12 con 1 usd, 34 con 2 usd", "fijo", prices) == BetCost(true, 200, 0)
  {
    assert DigitsValue("2") == 2 by { assert "2"[..0] == []; }
    assert "12 con 1 usd, 34 con 2 usd" == "12 con 1 usd, 34 con " + PriceText("2", "", " ", Usd);
    LastPriceWins("12 con 1 usd, 34 con ", "2", "", " ", Usd, "fijo", prices);
  }

  /** The bot's own example of two prices in different currencies: the CUP price, stated last, is
      the one charged. */
  lemma MixedPriceExample(prices: map<string, Price>)
    ensures ParseBetCost("7*1.5usd, 23*2cup", "fijo", prices) == BetCost(true, 0, 200)
  {
    assert DigitsValue("2") == 2 by { assert "2"[..0] == []; }
    assert "7*1.5usd, 23*2cup" == "7*1.5usd, 23*" + PriceText("2", "", "", Cup);
    LastPriceWins("7*1.5usd, 23*", "2", "", "", Cup, "fijo", prices);
  }

  /** A price with a fraction and no space before the currency. */
  lemma FractionPriceExample(prices: map<string, Price>)
    ensures ParseBetCost("7*1.5usd", "fijo", prices) == BetCost(true, 150, 0)
  {
    assert DigitsValue("1") == 1 by { assert "1"[..0] == []; }
    assert FractionCents("5") == 50;
    assert Decimal("1", "5") == "1.5";
    assert "7*1.5usd" == "7*" + PriceText("1", "5", "", Usd);
    LastPriceWins("7*", "1", "5", "", Usd, "fijo", prices);
  }

  // ---------------------------------------------------------------------------------------------
  // Conversion, commission, bonus-first split
  // ---------------------------------------------------------------------------------------------

  /** `cup_to_usd`: a CUP amount in USD at `rate` CUP per USD, rounded to the cent; 0 when the rate
      is 0. Both amounts and the rate are in cents. */
  function CupToUsd(cup: Cents, rate: Cents): (usd: Cents)
    ensures rate == 0 ==> usd == 0
    ensures rate > 0 ==> -rate <= 2 * (100 * cup - usd * rate) < rate
  {
    if rate == 0 then 0
    else if rate > 0 then RoundDiv(100 * cup, rate)
    else RoundDiv(-100 * cup, -rate)
  }

  /** The referral commission on a bet: 5% of its USD cost rounded to the cent, and nothing for a
      bet without a USD cost. */
  function Commission(costUsd: Cents): (c: Cents)
    ensures costUsd <= 0 ==> c == 0
    ensures costUsd > 0 ==> -20 <= 2 * (costUsd - 20 * c) < 20
    ensures c >= 0
  {
    if costUsd > 0 then RoundDiv(costUsd, 20) else 0
  }

  /** How a USD cost is paid: what comes out of `bonus_usd` and what comes out of `usd`. */
  datatype Split = Split(fromBonus: Cents, fromUsd: Cents)

  /** The bonus-first rule of `handle_bet`: `min(bonus, cost)` from the bonus, the rest from `usd`.
      The bonus left is `max(bonus - cost, 0)` and `usd` pays `max(cost - bonus, 0)`. */
  function BonusFirst(bonus: Cents, cost: Cents): (d: Split)
    ensures d.fromBonus + d.fromUsd == cost
    ensures bonus - d.fromBonus == Max(bonus - cost, 0)
    ensures d.fromUsd == Max(cost - bonus, 0)
  {
    var use := if bonus < cost then bonus else cost;
    Split(use, cost - use)
  }

  // ---------------------------------------------------------------------------------------------
  // Georgia betting hours
  // ---------------------------------------------------------------------------------------------

  const MicrosPerMinute: nat := 60_000_000

  /** A clock time as microseconds since midnight. */
  function Clock(h: nat, m: nat): nat { (60 * h + m) * MicrosPerMinute }

  /** The Georgia lottery takes bets at 09:00-12:00, 14:00-18:30 and 20:00-23:00 local time, both
      ends included; `now` is the local time of day in microseconds. */
  predicate GeorgiaOpen(now: nat)
  {
    (Clock(9, 0) <= now <= Clock(12, 0)) ||
    (Clock(14, 0) <= now <= Clock(18, 30)) ||
    (Clock(20, 0) <= now <= Clock(23, 0))
  }

  /** Georgia is closed from just after noon to 14:00, from just after 18:30 to 20:00 and from just
      after 23:00 to 09:00. */
  lemma GeorgiaClosedHours(now: nat)
    ensures Clock(12, 0) < now < Clock(14, 0) ==> !GeorgiaOpen(now)
    ensures Clock(18, 30) < now < Clock(20, 0) ==> !GeorgiaOpen(now)
    ensures (now < Clock(9, 0) || Clock(23, 0) < now) ==> !GeorgiaOpen(now)
    ensures GeorgiaOpen(Clock(10, 0)) && !GeorgiaOpen(Clock(13, 0))
    ensures GeorgiaOpen(Clock(9, 0)) && !GeorgiaOpen(Clock(9, 0) - 1)
    ensures GeorgiaOpen(Clock(12, 0)) && !GeorgiaOpen(Clock(12, 0) + 1)
    ensures GeorgiaOpen(Clock(14, 0)) && !GeorgiaOpen(Clock(14, 0) - 1)
    ensures GeorgiaOpen(Clock(18, 30)) && !GeorgiaOpen(Clock(18, 30) + 1)
    ensures GeorgiaOpen(Clock(20, 0)) && !GeorgiaOpen(Clock(20, 0) - 1)
    ensures GeorgiaOpen(Clock(23, 0)) && !GeorgiaOpen(Clock(23, 0) + 1)
  {
  }
}
