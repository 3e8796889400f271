/** The price printers of two generators and the one heuristic parser that has
    to undo them all.  Amounts are whole cents. */
module PriceText {
  import opened Basics
  import opened Sequences

  const EURO := '\U{20AC}'
  const POUND := '\U{A3}'
  const NUL := '\U{0}'

  function Symbol(c: Currency): char {
    match c case USD => '$' case EUR => EURO case GBP => POUND
  }

  function Code(c: Currency): string {
    match c case USD => "USD" case EUR => "EUR" case GBP => "GBP"
  }

  // ----- String primitives

  /** str.replace for a one-character pattern */
  function Replace(s: string, a: char, b: string): string {
    if |s| == 0 then [] else Replace(Init(s), a, b) + if Last(s) == a then b else [Last(s)]
  }

  /** str.rfind for one character */
  function RFind(s: string, c: char): int {
    if |s| == 0 then -1 else if Last(s) == c then |s| - 1 else RFind(Init(s), c)
  }

  /** str.split on one character */
  function Split(s: string, c: char): (parts: seq<string>)
    ensures |parts| > 0
  {
    if |s| == 0 then [[]]
    else
      var before := Split(Init(s), c);
      if Last(s) == c then before + [[]] else Init(before) + [Last(before) + [Last(s)]]
  }

  function LStripMinus(s: string): string {
    if |s| > 0 && s[0] == '-' then LStripMinus(s[1..]) else s
  }

  predicate IsSpace(c: char) {
    c == ' ' || '\t' <= c <= '\r' || '\U{1C}' <= c <= '\U{1F}' || c == '\U{85}' || c == '\U{A0}'
  }

  function Strip(s: string): string {
    if |s| > 0 && IsSpace(s[0]) then Strip(s[1..])
    else if |s| > 0 && IsSpace(Last(s)) then Strip(Init(s))
    else s
  }

  // ----- Printing

  function Digit(d: nat): char
    requires d < 10
  {
    "0123456789"[d]
  }

  predicate IsDigit(c: char) {
    '0' <= c <= '9'
  }

  function Value(c: char): (d: nat)
    requires IsDigit(c)
    ensures d < 10
  {
    c as int - '0' as int
  }

  function Digits(n: nat): string {
    if n < 10 then [Digit(n)] else Digits(n / 10) + [Digit(n % 10)]
  }

  function Two(n: nat): string
    requires n < 100
  {
    [Digit(n / 10), Digit(n % 10)]
  }

  function Three(n: nat): string
    requires n < 1000
  {
    [Digit(n / 100), Digit(n / 10 % 10), Digit(n % 10)]
  }

  /** Thousands separated by commas: the `,` of the format spec. */
  function Grouped(n: nat): string {
    if n < 1000 then Digits(n) else Grouped(n / 1000) + [','] + Three(n % 1000)
  }

  function Sign(cents: int): string {
    if cents < 0 then "-" else ""
  }

  /** f"{price:,.2f}" */
  function GroupedAmount(cents: int): string {
    Sign(cents) + Grouped(Abs(cents) / 100) + ['.'] + Two(Abs(cents) % 100)
  }

  /** f"{price:.2f}" */
  function PlainAmount(cents: int): string {
    Sign(cents) + Digits(Abs(cents) / 100) + ['.'] + Two(Abs(cents) % 100)
  }

  /** The replace chain through a NUL placeholder. */
  function SwapChain(s: string): string {
    Replace(Replace(Replace(s, ',', [NUL]), '.', [',']), NUL, ['.'])
  }

  function FormatPriceString(cents: int, currency: Currency, styleBit: int): string {
    if styleBit == 0 then [Symbol(currency)] + GroupedAmount(cents)
    else SwapChain(GroupedAmount(cents)) + [' '] + Code(currency)
  }

  /** The extraction fixtures' printer. */
  function PriceStr(cents: int, currency: Currency): string {
    match currency
    case USD => ['$'] + PlainAmount(cents)
    case GBP => [POUND] + PlainAmount(cents)
    case EUR => Replace(PlainAmount(cents), '.', [',']) + [' ', EURO]
  }

  // ----- Parsing

  datatype Raw = Missing | Number(value: real) | Written(text: string)

  predicate IsWordChar(c: char) {
    IsDigit(c) || 'a' <= c <= 'z' || 'A' <= c <= 'Z' || c == '_'
  }

  /** \b at position `i` */
  predicate Boundary(s: string, i: nat)
    requires i <= |s|
  {
    (i > 0 && IsWordChar(s[i - 1])) != (i < |s| && IsWordChar(s[i]))
  }

  function Upper(c: char): char {
    if 'a' <= c <= 'z' then (c as int - 32) as char else c
  }

  predicate CodeAt(s: string, i: nat) {
    && i + 3 <= |s|
    && [Upper(s[i]), Upper(s[i + 1]), Upper(s[i + 2])] in {"USD", "EUR", "GBP"}
    && Boundary(s, i) && Boundary(s, i + 3)
  }

  /** re.sub of a whole-word currency code, scanning from `i` */
  function RemoveCodes(s: string, i: nat): string
    requires i <= |s|
    decreases |s| - i
  {
    if i == |s| then []
    else if CodeAt(s, i) then RemoveCodes(s, i + 3)
    else [s[i]] + RemoveCodes(s, i + 1)
  }

  predicate IsNumeric(c: char) {
    IsDigit(c) || c == ',' || c == '.' || c == '-'
  }

  function KeepNumeric(s: string): string {
    Filter(s, IsNumeric)
  }

  predicate AllDigits(s: string) {
    forall i :: 0 <= i < |s| ==> IsDigit(s[i])
  }

  function DigitsValue(s: string): nat
    requires AllDigits(s)
  {
    if |s| == 0 then 0 else 10 * DigitsValue(Init(s)) + Value(Last(s))
  }

  function Pow10(n: nat): (p: nat)
    ensures p > 0
  {
    if n == 0 then 1 else 10 * Pow10(n - 1)
  }

  /** `digits` read as a number with `places` decimal places */
  function Scaled(digits: nat, places: nat): real {
    digits as real / Pow10(places) as real
  }

  /** float(): digits with at most one point and at least one digit; None is the ValueError. */
  function Float(s: string): Option<real> {
    var dot := RFind(s, '.');
    var whole := if 0 <= dot < |s| then s[..dot] else s;
    var frac := if 0 <= dot < |s| then s[dot + 1..] else [];
    if AllDigits(whole) && AllDigits(frac) && |whole| + |frac| > 0 then
      assert AllDigits(whole + frac);
      Some(Scaled(DigitsValue(whole + frac), |frac|))
    else None
  }

  /** The separator heuristic on an unsigned text. */
  function Normalize(text: string): string {
    var hasComma, hasDot := ',' in text, '.' in text;
    if hasComma && hasDot then
      if RFind(text, ',') > RFind(text, '.') then Replace(Replace(text, '.', []), ',', ['.'])
      else Replace(text, ',', [])
    else if hasComma then
      var parts := Split(text, ',');
      if |parts| == 2 && |parts[1]| == 2 then Replace(text, ',', ['.']) else Replace(text, ',', [])
    else text
  }

  function ParseNumeric(text: string): Option<real> {
    if text == [] then None
    else
      var neg := text[0] == '-';
      match Float(Normalize(LStripMinus(text)))
      case None => None
      case Some(v) => Some(if neg then -v else v)
  }

  function NormPrice(raw: Raw): Option<real> {
    match raw
    case Missing => None
    case Number(v) => Some(v)
    case Written(s) =>
      var text := Strip(s);
      if text == [] then None
      else ParseNumeric(KeepNumeric(RemoveCodes(text, 0)))
  }

  /** The parser as it runs: one text, rewritten branch by branch. */
  method ParsePrice(raw: Raw) returns (r: Option<real>)
    ensures r == NormPrice(raw)
  {
    hide Replace, Strip, RemoveCodes, KeepNumeric, LStripMinus, Split, RFind, Float;
    if raw.Missing? {
      return None;
    }
    if raw.Number? {
      return Some(raw.value);
    }
    var text := Strip(raw.text);
    if text == [] {
      return None;
    }
    text := RemoveCodes(text, 0);
    text := KeepNumeric(text);
    if text == [] {
      return None;
    }
    var neg := text[0] == '-';
    text := LStripMinus(text);
    var hasComma, hasDot := ',' in text, '.' in text;
    if hasComma && hasDot {
      if RFind(text, ',') > RFind(text, '.') {
        text := Replace(text, '.', []);
        text := Replace(text, ',', ['.']);
      } else {
        text := Replace(text, ',', []);
      }
    } else if hasComma && !hasDot {
      var parts := Split(text, ',');
      if |parts| == 2 && |parts[1]| == 2 {
        text := Replace(text, ',', ['.']);
      } else {
        text := Replace(text, ',', []);
      }
    }
    var value := Float(text);
    if value.None? {
      return None;
    }
    return Some(if neg then -value.value else value.value);
  }

  // ----- Only the numeric characters matter

  lemma {:induction false} KeepStrip(s: string)
    ensures KeepNumeric(Strip(s)) == KeepNumeric(s)
    decreases |s|
  {
    if |s| > 0 && IsSpace(s[0]) {
      KeepStrip(s[1..]);
      assert s == [s[0]] + s[1..];
      FilterAppend([s[0]], s[1..], IsNumeric);
      FilterOne(s[0], IsNumeric);
    } else if |s| > 0 && IsSpace(Last(s)) {
      KeepStrip(Init(s));
    }
  }

  lemma {:induction false} KeepRemoveCodes(s: string, i: nat)
    requires i <= |s|
    ensures KeepNumeric(RemoveCodes(s, i)) == KeepNumeric(s[i..])
    decreases |s| - i
  {
    if i < |s| {
      if CodeAt(s, i) {
        KeepRemoveCodes(s, i + 3);
        var code := s[i..i + 3];
        assert s[i..] == code + s[i + 3..];
        FilterAppend(code, s[i + 3..], IsNumeric);
        CodeNotNumeric(s, i);
        FilterNone(code, IsNumeric);
      } else {
        KeepRemoveCodes(s, i + 1);
        assert s[i..] == [s[i]] + s[i + 1..];
        FilterAppend([s[i]], s[i + 1..], IsNumeric);
        FilterAppend([s[i]], RemoveCodes(s, i + 1), IsNumeric);
      }
    }
  }

  lemma CodeNotNumeric(s: string, i: nat)
    requires CodeAt(s, i)
    ensures forall c :: c in s[i..i + 3] ==> !IsNumeric(c)
  {
    var up := [Upper(s[i]), Upper(s[i + 1]), Upper(s[i + 2])];
    assert 'A' <= up[0] <= 'Z' && 'A' <= up[1] <= 'Z' && 'A' <= up[2] <= 'Z';
    assert s[i..i + 3] == [s[i], s[i + 1], s[i + 2]];
  }

  /** Stripping blanks and currency codes is absorbed by the final filter: the
      result depends on the digits, separators and minus signs alone. */
  lemma NormPriceOfNumeric(s: string)
    ensures NormPrice(Written(s)) == ParseNumeric(KeepNumeric(s))
  {
    KeepStrip(s);
    KeepRemoveCodes(Strip(s), 0);
    assert Strip(s)[0..] == Strip(s);
  }

  // ----- String primitives on concatenations

  lemma {:induction false} ReplaceAppend(s: string, t: string, a: char, b: string)
    ensures Replace(s + t, a, b) == Replace(s, a, b) + Replace(t, a, b)
  {
    if |t| == 0 {
      assert s + t == s;
    } else {
      ReplaceAppend(s, Init(t), a, b);
      assert Init(s + t) == s + Init(t);
    }
  }

  lemma ReplaceSingle(c: char, a: char, b: string)
    ensures Replace([c], a, b) == if c == a then b else [c]
  {
    InitAppend([], c);
  }

  lemma {:induction false} ReplaceAbsent(s: string, a: char, b: string)
    requires a !in s
    ensures Replace(s, a, b) == s
  {
    if |s| > 0 {
      ReplaceAbsent(Init(s), a, b);
      InitLast(s);
    }
  }

  function Subst(a: char, b: char): char -> char {
    c => if c == a then b else c
  }

  lemma {:induction false} ReplaceIsMap(s: string, a: char, b: char)
    ensures Replace(s, a, [b]) == Map(s, Subst(a, b))
  {
    if |s| > 0 {
      ReplaceIsMap(Init(s), a, b);
    }
  }

  lemma {:induction false} RFindRange(s: string, c: char)
    ensures -1 <= RFind(s, c) < |s|
    ensures RFind(s, c) >= 0 <==> c in s
    ensures RFind(s, c) >= 0 ==> s[RFind(s, c)] == c
  {
    if |s| > 0 {
      RFindRange(Init(s), c);
      InitLast(s);
    }
  }

  lemma {:induction false} RFindAppend(s: string, t: string, c: char)
    ensures RFind(s + t, c) == if c in t then |s| + RFind(t, c) else RFind(s, c)
  {
    if |t| == 0 {
      assert s + t == s;
    } else {
      RFindAppend(s, Init(t), c);
      assert Init(s + t) == s + Init(t);
      InitLast(t);
      RFindRange(Init(t), c);
    }
  }

  lemma {:induction false} SplitAbsent(s: string, c: char)
    requires c !in s
    ensures Split(s, c) == [s]
  {
    if |s| > 0 {
      SplitAbsent(Init(s), c);
      InitLast(s);
    }
  }

  lemma {:induction false} SplitOnce(s: string, t: string, c: char)
    requires c !in s && c !in t
    ensures Split(s + [c] + t, c) == [s, t]
  {
    if |t| == 0 {
      assert s + [c] + t == s + [c];
      InitAppend(s, c);
      SplitAbsent(s, c);
    } else {
      SplitOnce(s, Init(t), c);
      InitLast(t);
      assert s + [c] + t == (s + [c] + Init(t)) + [Last(t)];
      InitAppend(s + [c] + Init(t), Last(t));
    }
  }

  // ----- Digits

  lemma {:induction false} DigitsFacts(n: nat)
    ensures |Digits(n)| > 0 && AllDigits(Digits(n)) && DigitsValue(Digits(n)) == n
  {
    if n >= 10 {
      DigitsFacts(n / 10);
      InitAppend(Digits(n / 10), Digit(n % 10));
    } else {
      InitAppend([], Digit(n));
    }
  }

  lemma DigitsOnly(n: nat)
    ensures |Digits(n)| > 0 && forall c :: c in Digits(n) ==> IsDigit(c)
  {
    DigitsFacts(n);
    hide Digits;
    forall c | c in Digits(n) ensures IsDigit(c) {
      var i :| 0 <= i < |Digits(n)| && Digits(n)[i] == c;
    }
  }

  lemma DigitIsDigit(d: nat)
    requires d < 10
    ensures IsDigit(Digit(d)) && Value(Digit(d)) == d
  {
  }

  lemma AppendDigit(s: string, d: nat)
    requires AllDigits(s) && d < 10
    ensures AllDigits(s + [Digit(d)]) && DigitsValue(s + [Digit(d)]) == 10 * DigitsValue(s) + d
  {
    DigitIsDigit(d);
    InitAppend(s, Digit(d));
  }

  lemma AppendTwo(s: string, d: nat)
    requires AllDigits(s) && d < 100
    ensures AllDigits(s + Two(d)) && DigitsValue(s + Two(d)) == 100 * DigitsValue(s) + d
  {
    AppendDigit(s, d / 10);
    AppendDigit(s + [Digit(d / 10)], d % 10);
    assert s + Two(d) == s + [Digit(d / 10)] + [Digit(d % 10)];
  }

  lemma DigitsStep(n: nat)
    requires n >= 10
    ensures Digits(n) == Digits(n / 10) + [Digit(n % 10)]
  {
  }

  lemma ThousandsArithmetic(n: nat)
    ensures n / 10 / 10 / 10 == n / 1000
    ensures n / 10 / 10 % 10 == n % 1000 / 100
    ensures n / 10 % 10 == n % 1000 / 10 % 10
    ensures n % 10 == n % 1000 % 10
  {
  }

  lemma DigitsByThousands(n: nat)
    requires n >= 1000
    ensures Digits(n) == Digits(n / 1000) + Three(n % 1000)
  {
    hide Digits, Digit;
    DigitsStep(n);
    DigitsStep(n / 10);
    DigitsStep(n / 10 / 10);
    ThousandsArithmetic(n);
  }

  lemma {:induction false} GroupedFacts(n: nat)
    ensures |Grouped(n)| > 0 && IsDigit(Grouped(n)[0])
    ensures forall c :: c in Grouped(n) ==> IsDigit(c) || c == ','
    ensures ',' in Grouped(n) <==> n >= 1000
    ensures Replace(Grouped(n), ',', []) == Digits(n)
    ensures n < 1000 ==> Grouped(n) == Digits(n)
  {
    if n < 1000 {
      DigitsFacts(n);
      forall c | c in Digits(n) ensures IsDigit(c) {
        var i :| 0 <= i < |Digits(n)| && Digits(n)[i] == c;
      }
      ReplaceAbsent(Digits(n), ',', []);
    } else {
      GroupedFacts(n / 1000);
      DigitsByThousands(n);
      ThreeFacts(n % 1000);
      hide Three, Digits, Replace;
      GroupedStep(Grouped(n / 1000), Three(n % 1000), Digits(n / 1000));
    }
  }

  /** The `k`-th character from the right. */
  function FromRight(s: string, k: nat): char
    requires k < |s|
  {
    s[|s| - 1 - k]
  }

  /** Commas stand exactly before every third digit from the right. */
  lemma {:induction false} CommaEveryThird(n: nat, k: nat)
    requires k < |Grouped(n)|
    ensures FromRight(Grouped(n), k) == ',' <==> k % 4 == 3
  {
    hide FromRight, Three;
    if n < 1000 {
      hide Grouped;
      NoCommaBelowThousand(n, k);
    } else {
      var head := Grouped(n / 1000);
      assert Grouped(n) == head + [','] + Three(n % 1000);
      ThreeFacts(n % 1000);
      hide Grouped;
      GroupFromRight(head, n % 1000, k);
      if k > 3 {
        CommaEveryThird(n / 1000, k - 4);
      }
    }
  }

  lemma NoCommaBelowThousand(n: nat, k: nat)
    requires n < 1000 && k < |Grouped(n)|
    ensures FromRight(Grouped(n), k) != ',' && k < 3
  {
    GroupedFacts(n);
    ShortDigits(n);
    hide Grouped, Digits;
    assert FromRight(Grouped(n), k) in Grouped(n);
  }

  lemma GroupFromRight(head: string, low: nat, k: nat)
    requires low < 1000 && k < |head| + 4
    ensures |head + [','] + Three(low)| == |head| + 4
    ensures k < 3 ==> FromRight(head + [','] + Three(low), k) != ','
    ensures k == 3 ==> FromRight(head + [','] + Three(low), k) == ','
    ensures k > 3 ==> FromRight(head + [','] + Three(low), k) == FromRight(head, k - 4)
  {
    ThreeFacts(low);
    var three := Three(low);
    hide Three;
    if k < 3 {
      assert FromRight(head + [','] + three, k) == three[2 - k];
      assert three[2 - k] in three;
    }
  }

  lemma ShortDigits(n: nat)
    requires n < 1000
    ensures |Digits(n)| <= 3
  {
    assert n >= 10 ==> |Digits(n)| == |Digits(n / 10)| + 1;
    assert n >= 100 ==> |Digits(n / 10)| == |Digits(n / 100)| + 1;
  }

  lemma ThreeFacts(d: nat)
    requires d < 1000
    ensures |Three(d)| == 3 && forall c :: c in Three(d) ==> IsDigit(c)
  {
    DigitIsDigit(d / 100);
    DigitIsDigit(d / 10 % 10);
    DigitIsDigit(d % 10);
    hide Digit;
  }

  lemma GroupedStep(head: string, three: string, digits: string)
    requires forall c :: c in three ==> IsDigit(c)
    requires Replace(head, ',', []) == digits
    ensures Replace(head + [','] + three, ',', []) == digits + three
    ensures ',' in head + [','] + three
  {
    hide Replace;
    assert ',' !in three;
    ReplaceAppend(head + [','], three, ',', []);
    ReplaceAppend(head, [','], ',', []);
    ReplaceAbsent(three, ',', []);
    ReplaceSingle(',', ',', []);
    assert (head + [',']) [|head|] == ',';
  }

  // ----- The placeholder chain

  function SwapSeparators(c: char): char {
    if c == ',' then '.' else if c == '.' then ',' else c
  }

  /** Chained through NUL, the three replacements exchange comma and dot at once
      exactly when the text has no NUL of its own. */
  lemma ChainIsSwap(s: string)
    ensures SwapChain(s) == Map(s, SwapSeparators) <==> NUL !in s
  {
    var s1 := Map(s, Subst(',', NUL));
    var s2 := Map(s1, Subst('.', ','));
    var s3 := Map(s2, Subst(NUL, '.'));
    ReplaceIsMap(s, ',', NUL);
    ReplaceIsMap(s1, '.', ',');
    ReplaceIsMap(s2, NUL, '.');
    assert SwapChain(s) == s3;
    var swapped := Map(s, SwapSeparators);
    if NUL in s {
      var i :| 0 <= i < |s| && s[i] == NUL;
      assert s3[i] == '.' && swapped[i] == NUL;
    } else {
      forall i | 0 <= i < |s| ensures s3[i] == swapped[i] {
        assert s[i] in s;
      }
    }
  }

  lemma {:induction false} SwapOfNoDot(s: string)
    requires '.' !in s
    ensures Map(s, SwapSeparators) == Replace(s, ',', ['.'])
  {
    ReplaceIsMap(s, ',', '.');
    forall i | 0 <= i < |s| ensures SwapSeparators(s[i]) == Subst(',', '.')(s[i]) {
      assert s[i] in s;
    }
    assert Map(s, SwapSeparators) == Map(s, Subst(',', '.'));
  }

  // ----- Each layout normalises to plain digits and a point

  lemma TwoFacts(d: nat)
    requires d < 100
    ensures |Two(d)| == 2 && AllDigits(Two(d)) && ',' !in Two(d) && '.' !in Two(d) && '-' !in Two(d)
  {
  }

  /** A point after every comma is the decimal point. */
  lemma PointLast(g: string, t: string)
    requires '.' !in g && ',' !in t && '.' !in t
    ensures Normalize(g + ['.'] + t) == Replace(g, ',', []) + ['.'] + t
  {
    hide Replace, RFind, Split;
    var tail := ['.'] + t;
    assert g + ['.'] + t == g + tail;
    assert tail[0] == '.' && '.' in tail && ',' !in tail && (g + tail)[|g|] == '.';
    if ',' in g {
      RFindAppend(g, tail, ',');
      RFindAppend(g, tail, '.');
      RFindRange(g, ',');
      RFindRange(tail, '.');
      ReplaceAppend(g, tail, ',', []);
      ReplaceAbsent(tail, ',', []);
      assert ',' in g + tail;
      assert Replace(g, ',', []) + tail == Replace(g, ',', []) + ['.'] + t;
    } else {
      ReplaceAbsent(g, ',', []);
    }
  }

  lemma NormalizeGrouped(n: nat, d: nat)
    requires d < 100
    ensures Normalize(Grouped(n) + ['.'] + Two(d)) == Digits(n) + ['.'] + Two(d)
  {
    GroupedFacts(n);
    TwoFacts(d);
    hide Two, Grouped, Digits, Replace, Normalize;
    PointLast(Grouped(n), Two(d));
  }

  lemma NormalizeSwapped(n: nat, d: nat)
    requires d < 100
    ensures Normalize(Replace(Grouped(n), ',', ['.']) + [','] + Two(d)) == Digits(n) + ['.'] + Two(d)
  {
    hide Two, Grouped, Digits, Replace, RFind, Split;
    TwoFacts(d);
    var g, tail := Replace(Grouped(n), ',', ['.']), [','] + Two(d);
    var text := g + tail;
    assert text == g + [','] + Two(d);
    SwappedGroups(n);
    CommaTail(Two(d));
    if n >= 1000 {
      RFindAppend(g, tail, ',');
      RFindAppend(g, tail, '.');
      RFindRange(g, '.');
      RFindRange(tail, ',');
      ReplaceAppend(g, tail, '.', []);
      ReplaceAbsent(tail, '.', []);
      ReplaceAppend(Digits(n), tail, ',', ['.']);
      ReplaceAbsent(Digits(n), ',', ['.']);
      assert Digits(n) + (['.'] + Two(d)) == Digits(n) + ['.'] + Two(d);
    } else {
      CommaOnly(g, Two(d));
    }
  }

  lemma CommaTail(t: string)
    requires ',' !in t
    ensures Replace([','] + t, ',', ['.']) == ['.'] + t
  {
    ReplaceAppend([','], t, ',', ['.']);
    ReplaceAbsent(t, ',', ['.']);
    ReplaceSingle(',', ',', ['.']);
  }

  /** One comma before exactly two characters is a decimal comma. */
  lemma CommaOnly(g: string, t: string)
    requires ',' !in g && '.' !in g && ',' !in t && '.' !in t && |t| == 2
    ensures Normalize(g + [','] + t) == g + ['.'] + t
  {
    hide Replace, RFind, Split;
    assert g + [','] + t == g + ([','] + t);
    SplitOnce(g, t, ',');
    ReplaceAppend(g, [','] + t, ',', ['.']);
    ReplaceAbsent(g, ',', ['.']);
    CommaTail(t);
    assert g + (['.'] + t) == g + ['.'] + t;
    assert (g + [','] + t)[|g|] == ',';
  }

  /** European grouping: dots instead of commas, and nothing else. */
  lemma SwappedGroups(n: nat)
    ensures var g := Replace(Grouped(n), ',', ['.']);
            && ',' !in g && ',' !in Digits(n)
            && ('.' in g <==> n >= 1000)
            && (n < 1000 ==> g == Digits(n))
            && Replace(g, '.', []) == Digits(n)
            && |g| > 0 && IsDigit(g[0])
            && (forall c :: c in g ==> IsDigit(c) || c == '.')
  {
    GroupedFacts(n);
    DigitsOnly(n);
    hide Grouped, Digits, Replace;
    var s := Grouped(n);
    var g := Replace(s, ',', ['.']);
    ReplaceIsMap(s, ',', '.');
    forall c | c in g ensures IsDigit(c) || c == '.' {
      var i :| 0 <= i < |g| && g[i] == c;
      assert s[i] in s;
    }
    if ',' in s {
      var i :| 0 <= i < |s| && s[i] == ',';
      assert g[i] == '.';
    } else {
      ReplaceAbsent(s, ',', ['.']);
    }
    DotsBackToNothing(s);
  }

  lemma {:induction false} DotsBackToNothing(s: string)
    requires '.' !in s
    ensures Replace(Replace(s, ',', ['.']), '.', []) == Replace(s, ',', [])
  {
    if |s| > 0 {
      DotsBackToNothing(Init(s));
      InitLast(s);
      var before := Replace(Init(s), ',', ['.']);
      if Last(s) == ',' {
        InitAppend(before, '.');
      } else {
        InitAppend(before, Last(s));
      }
    }
  }

  lemma NormalizePlain(n: nat, d: nat)
    requires d < 100
    ensures Normalize(Digits(n) + ['.'] + Two(d)) == Digits(n) + ['.'] + Two(d)
    ensures Normalize(Digits(n) + [','] + Two(d)) == Digits(n) + ['.'] + Two(d)
  {
    hide Two, Digits, Replace, RFind, Split;
    DigitsOnly(n);
    TwoFacts(d);
    CommaOnly(Digits(n), Two(d));
  }

  lemma RFindHead(t: string, c: char)
    requires c !in t
    ensures RFind([c] + t, c) == 0
  {
    RFindAppend([c], t, c);
    InitAppend([], c);
  }

  /** A text with its last point in view. */
  lemma FloatSplit(whole: string, frac: string)
    requires '.' !in frac
    ensures var digits := whole + frac;
            Float(whole + ['.'] + frac)
            == if AllDigits(whole) && AllDigits(frac) && |whole| + |frac| > 0
               then assert AllDigits(digits); Some(Scaled(DigitsValue(digits), |frac|)) else None
  {
    hide RFind, DigitsValue, Scaled;
    var s, tail := whole + ['.'] + frac, ['.'] + frac;
    assert s == whole + tail;
    RFindHead(frac, '.');
    RFindAppend(whole, tail, '.');
    assert tail[0] == '.' && '.' in tail;
    assert RFind(s, '.') == |whole|;
    assert s[..|whole|] == whole && s[|whole| + 1..] == frac;
  }

  lemma FloatOfAmount(n: nat, d: nat)
    requires d < 100
    ensures Float(Digits(n) + ['.'] + Two(d)) == Some((100 * n + d) as real / 100.0)
  {
    DigitsFacts(n);
    TwoFacts(d);
    AppendTwo(Digits(n), d);
    hide Digits, Two, DigitsValue, Float, Scaled;
    FloatSplit(Digits(n), Two(d));
    ScaledPlaces(100 * n + d);
  }

  lemma ScaledPlaces(v: nat)
    ensures Scaled(v, 0) == v as real
    ensures Scaled(v, 2) == v as real / 100.0
    ensures Scaled(v, 3) == v as real / 1000.0
  {
    assert Pow10(2) == 10 * Pow10(1) == 100;
    assert Pow10(3) == 10 * Pow10(2) == 1000;
  }

  /** What the parser makes of a signed amount, once its separators normalise. */
  lemma ParseSigned(cents: int, body: string)
    requires body != [] && body[0] != '-'
    requires Normalize(body) == Digits(Abs(cents) / 100) + ['.'] + Two(Abs(cents) % 100)
    ensures ParseNumeric(Sign(cents) + body) == Some(cents as real / 100.0)
  {
    hide Digits, Two, Float, Normalize;
    FloatOfAmount(Abs(cents) / 100, Abs(cents) % 100);
    assert 100 * (Abs(cents) / 100) + Abs(cents) % 100 == Abs(cents);
    var text := Sign(cents) + body;
    if cents < 0 {
      assert text[0] == '-' && text[1..] == body;
      assert LStripMinus(text) == LStripMinus(body) == body;
      assert Abs(cents) as real == -(cents as real);
    } else {
      assert text == body;
    }
  }

  // ----- Round trips

  lemma KeepAll(s: string)
    requires forall c :: c in s ==> IsNumeric(c)
    ensures KeepNumeric(s) == s
  {
    FilterAll(s, IsNumeric);
  }

  /** A numeric text keeps its meaning inside any non-numeric surroundings. */
  lemma SurroundingsIgnored(pre: string, s: string, post: string)
    requires forall c :: c in pre || c in post ==> !IsNumeric(c)
    requires forall c :: c in s ==> IsNumeric(c)
    ensures NormPrice(Written(pre + s + post)) == ParseNumeric(s)
  {
    hide Filter, NormPrice, ParseNumeric;
    NormPriceOfNumeric(pre + s + post);
    FilterAppend(pre + s, post, IsNumeric);
    FilterAppend(pre, s, IsNumeric);
    FilterNone(pre, IsNumeric);
    FilterNone(post, IsNumeric);
    KeepAll(s);
    assert [] + s + [] == s;
  }

  lemma BodyNumeric(n: nat, d: nat)
    requires d < 100
    ensures forall c :: c in Grouped(n) + ['.'] + Two(d) ==> IsNumeric(c)
    ensures forall c :: c in Replace(Grouped(n), ',', ['.']) + [','] + Two(d) ==> IsNumeric(c)
    ensures forall c :: c in Digits(n) + ['.'] + Two(d) ==> IsNumeric(c)
    ensures forall c :: c in Digits(n) + [','] + Two(d) ==> IsNumeric(c)
    ensures IsDigit(Digits(n)[0])
  {
    hide Grouped, Digits, Two, Replace;
    GroupedFacts(n);
    SwappedGroups(n);
    DigitsOnly(n);
    TwoFacts(d);
  }

  function SwappedBody(n: nat, d: nat): string
    requires d < 100
  {
    Replace(Grouped(n), ',', ['.']) + [','] + Two(d)
  }

  /** The European style is the swapped amount: dots for groups, a comma for cents. */
  lemma SwappedAmount(cents: int)
    ensures SwapChain(GroupedAmount(cents))
         == Sign(cents) + SwappedBody(Abs(cents) / 100, Abs(cents) % 100)
  {
    hide Grouped, Two, Map, Replace, SwapChain;
    var n, d := Abs(cents) / 100, Abs(cents) % 100;
    GroupedFacts(n);
    TwoFacts(d);
    ChainIsSwap(GroupedAmount(cents));
    SwapOfNoDot(Grouped(n));
    var g, t := Grouped(n), Two(d);
    assert forall i :: 0 <= i < |t| ==> SwapSeparators(t[i]) == t[i];
    assert Map(GroupedAmount(cents), SwapSeparators)
        == Sign(cents) + (Map(g, SwapSeparators) + [','] + t);
  }

  lemma AmountReadsBack(cents: int, pre: string, body: string, post: string, printed: string)
    requires printed == pre + (Sign(cents) + body) + post
    requires forall c :: c in pre || c in post ==> !IsNumeric(c)
    requires forall c :: c in body ==> IsNumeric(c)
    requires body != [] && body[0] != '-'
    requires Normalize(body) == Digits(Abs(cents) / 100) + ['.'] + Two(Abs(cents) % 100)
    ensures NormPrice(Written(printed)) == Some(cents as real / 100.0)
  {
    hide Digits, Two, NormPrice, ParseNumeric, Normalize;
    ParseSigned(cents, body);
    SurroundingsIgnored(pre, Sign(cents) + body, post);
  }

  lemma SymbolsNotNumeric(c: Currency)
    ensures !IsNumeric(Symbol(c)) && !IsNumeric(EURO)
    ensures forall x :: x in [' '] + Code(c) ==> !IsNumeric(x)
  {
  }

  lemma Regroup(symbol: string, sign: string, a: string, b: string, c: string)
    ensures symbol + (sign + a + b + c) == symbol + (sign + (a + b + c)) + []
  {
  }

  /** US drift-day strings, in any currency, read back as the amount printed. */
  lemma UsRoundTrip(cents: int, currency: Currency)
    ensures NormPrice(Written([Symbol(currency)] + GroupedAmount(cents))) == Some(cents as real / 100.0)
  {
    var n, d := Abs(cents) / 100, Abs(cents) % 100;
    BodyNumeric(n, d);
    GroupedFacts(n);
    SymbolsNotNumeric(currency);
    NormalizeGrouped(n, d);
    hide Grouped, Digits, Two, NormPrice, Normalize, Symbol, Sign;
    Regroup([Symbol(currency)], Sign(cents), Grouped(n), ['.'], Two(d));
    AmountReadsBack(cents, [Symbol(currency)], Grouped(n) + ['.'] + Two(d), [], [Symbol(currency)] + GroupedAmount(cents));
  }

  lemma SwappedBodyFacts(n: nat, d: nat)
    requires d < 100
    ensures |SwappedBody(n, d)| > 0 && IsDigit(SwappedBody(n, d)[0])
    ensures forall c :: c in SwappedBody(n, d) ==> IsNumeric(c)
    ensures Normalize(SwappedBody(n, d)) == Digits(n) + ['.'] + Two(d)
  {
    BodyNumeric(n, d);
    SwappedGroups(n);
    NormalizeSwapped(n, d);
    hide Grouped, Digits, Two, Normalize, Replace;
    assert SwappedBody(n, d)[0] == Replace(Grouped(n), ',', ['.'])[0];
  }

  /** European drift-day strings read back as the amount printed. */
  lemma EuropeanRoundTrip(cents: int, currency: Currency)
    ensures NormPrice(Written(SwapChain(GroupedAmount(cents)) + [' '] + Code(currency))) == Some(cents as real / 100.0)
  {
    var n, d := Abs(cents) / 100, Abs(cents) % 100;
    hide Grouped, Digits, Two, NormPrice, Normalize, Code, Sign, Replace, SwapChain, GroupedAmount, SwappedBody;
    SwappedBodyFacts(n, d);
    SymbolsNotNumeric(currency);
    SwappedAmount(cents);
    var body, code := SwappedBody(n, d), [' '] + Code(currency);
    AmountReadsBack(cents, [], body, code, [] + (Sign(cents) + body) + code);
    Reattach(Sign(cents) + body, [' '], Code(currency));
  }

  lemma Reattach(x: string, y: string, z: string)
    ensures [] + x + (y + z) == x + y + z
  {
  }

  /** Both drift-day styles, in any currency, read back as the amount printed. */
  lemma FormatRoundTrip(cents: int, currency: Currency, styleBit: int)
    ensures NormPrice(Written(FormatPriceString(cents, currency, styleBit))) == Some(cents as real / 100.0)
  {
    UsRoundTrip(cents, currency);
    EuropeanRoundTrip(cents, currency);
    hide NormPrice, GroupedAmount, SwapChain, Symbol, Code;
  }

  lemma TwoEndsInDigit(n: nat)
    requires n < 100
    ensures |Two(n)| == 2 && IsDigit(Last(Two(n)))
  {
    var d := n % 10;
    assert d in [0, 1, 2, 3, 4, 5, 6, 7, 8, 9];
  }

  /** The text opens with the currency's symbol or ends with its code. */
  lemma FormatShowsCurrency(cents: int, currency: Currency, styleBit: int)
    ensures var s := FormatPriceString(cents, currency, styleBit);
            && |s| >= 3
            && (styleBit == 0 ==> s[0] == Symbol(currency) && IsDigit(Last(s)))
            && (styleBit != 0 ==> s[|s| - 3..] == Code(currency) && !IsDigit(Last(s)))
  {
    TwoEndsInDigit(Abs(cents) % 100);
    hide Grouped, SwapChain, Two, Replace;
  }

  /** Two prints are the same text only for the same amount, currency and style. */
  lemma FormatInjective(c: int, x: Currency, s: int, d: int, y: Currency, t: int)
    requires FormatPriceString(c, x, s) == FormatPriceString(d, y, t)
    ensures c == d && x == y && (s == 0 <==> t == 0)
  {
    FormatRoundTrip(c, x, s);
    FormatRoundTrip(d, y, t);
    FormatShowsCurrency(c, x, s);
    FormatShowsCurrency(d, y, t);
    hide FormatPriceString, NormPrice;
  }

  lemma PointedRoundTrip(cents: int, currency: Currency)
    ensures NormPrice(Written([Symbol(currency)] + PlainAmount(cents))) == Some(cents as real / 100.0)
  {
    var n, d := Abs(cents) / 100, Abs(cents) % 100;
    BodyNumeric(n, d);
    DigitsOnly(n);
    SymbolsNotNumeric(currency);
    NormalizePlain(n, d);
    hide Digits, Two, NormPrice, Normalize, Symbol, Sign;
    Regroup([Symbol(currency)], Sign(cents), Digits(n), ['.'], Two(d));
    AmountReadsBack(cents, [Symbol(currency)], Digits(n) + ['.'] + Two(d), [], [Symbol(currency)] + PlainAmount(cents));
  }

  lemma EuroSuffixRoundTrip(cents: int)
    ensures NormPrice(Written(Replace(PlainAmount(cents), '.', [',']) + [' ', EURO])) == Some(cents as real / 100.0)
  {
    var n, d := Abs(cents) / 100, Abs(cents) % 100;
    BodyNumeric(n, d);
    DigitsOnly(n);
    NormalizePlain(n, d);
    PlainWithComma(cents);
    hide Digits, Two, NormPrice, Normalize, Sign, Replace, PlainAmount;
    var body := Digits(n) + [','] + Two(d);
    AmountReadsBack(cents, [], body, [' ', EURO], [] + (Sign(cents) + body) + [' ', EURO]);
    assert Replace(PlainAmount(cents), '.', [',']) + [' ', EURO] == [] + (Sign(cents) + body) + [' ', EURO];
  }

  /** The extraction fixtures' strings read back as the amount printed. */
  lemma PriceStrRoundTrip(cents: int, currency: Currency)
    ensures NormPrice(Written(PriceStr(cents, currency))) == Some(cents as real / 100.0)
  {
    PointedRoundTrip(cents, currency);
    EuroSuffixRoundTrip(cents);
    hide NormPrice, PlainAmount, Replace;
  }

  /** The extraction printer, too, never prints two prices alike. */
  lemma PriceStrInjective(c: int, x: Currency, d: int, y: Currency)
    requires PriceStr(c, x) == PriceStr(d, y)
    ensures c == d && x == y
  {
    PriceStrRoundTrip(c, x);
    PriceStrRoundTrip(d, y);
    PriceStrShowsCurrency(c, x);
    PriceStrShowsCurrency(d, y);
    hide PriceStr, NormPrice;
  }

  lemma PriceStrShowsCurrency(cents: int, currency: Currency)
    ensures var s := PriceStr(cents, currency);
            && |s| > 0
            && (currency != EUR ==> s[0] == Symbol(currency) && IsDigit(Last(s)))
            && (currency == EUR ==> Last(s) == EURO)
  {
    TwoEndsInDigit(Abs(cents) % 100);
    hide Digits, Two, Replace;
  }

  /** Dollars, euros and pounds by sign and by code; a point before the cents in the one
      style, a comma in the other. */
  lemma FormatLooks(cents: int, currency: Currency, styleBit: int)
    ensures var s := FormatPriceString(cents, currency, styleBit);
            && |s| >= 5
            && (styleBit == 0 ==>
                  && s[|s| - 3] == '.'
                  && s[0] == (match currency case USD => '$' case EUR => '\U{20AC}' case GBP => '\U{A3}'))
            && (styleBit != 0 ==>
                  && |s| >= 8 && s[|s| - 7] == ','
                  && s[|s| - 4..] == (match currency case USD => " USD" case EUR => " EUR" case GBP => " GBP"))
  {
    if styleBit == 0 {
      PointLooks(cents, currency);
    } else {
      CommaLooks(cents, currency);
    }
    hide GroupedAmount, SwapChain;
  }

  lemma PointLooks(cents: int, currency: Currency)
    ensures var s := [Symbol(currency)] + GroupedAmount(cents);
            |s| >= 5 && s[|s| - 3] == '.' && s[0] == Symbol(currency)
  {
    var n, d := Abs(cents) / 100, Abs(cents) % 100;
    GroupedFacts(n);
    var head, t := Sign(cents) + Grouped(n), Two(d);
    assert |head| > 0 && |t| == 2 && GroupedAmount(cents) == head + ['.'] + t;
    hide GroupedAmount, Grouped, Two, Sign, Symbol;
  }

  lemma CommaLooks(cents: int, currency: Currency)
    ensures var s := SwapChain(GroupedAmount(cents)) + [' '] + Code(currency);
            |s| >= 8 && s[|s| - 7] == ',' && s[|s| - 4..] == [' '] + Code(currency)
  {
    var n, d := Abs(cents) / 100, Abs(cents) % 100;
    hide SwapChain, GroupedAmount, Grouped, Replace, SwappedBody, Two, Sign;
    SwappedAmount(cents);
    CommaBodyLooks(Sign(cents), n, d);
  }

  lemma CommaBodyLooks(sign: string, n: nat, d: nat)
    requires d < 100
    ensures var s := sign + SwappedBody(n, d);
            |s| >= 4 && s[|s| - 3] == ','
  {
    hide Grouped, Replace;
    GroupedFacts(n);
    ReplaceIsMap(Grouped(n), ',', '.');
    var whole, t := Replace(Grouped(n), ',', ['.']), Two(d);
    assert |whole| > 0 && |t| == 2;
    assert SwappedBody(n, d) == whole + [','] + t;
    hide Two, SwappedBody;
  }

  /** The extraction prices: sign and point for dollars and pounds, comma and trailing sign for euros. */
  lemma PriceStrLooks(cents: int, currency: Currency)
    ensures var s := PriceStr(cents, currency);
            && |s| >= 5
            && (currency == USD ==> s[0] == '$' && s[|s| - 3] == '.')
            && (currency == GBP ==> s[0] == '\U{A3}' && s[|s| - 3] == '.')
            && (currency == EUR ==> s[|s| - 2..] == [' ', '\U{20AC}'] && s[|s| - 5] == ',')
  {
    var n := Abs(cents) / 100;
    DigitsFacts(n);
    PlainWithComma(cents);
    hide Digits, Two, Replace;
  }

  // ----- Texts without a price

  lemma {:induction false} ReplaceMember(s: string, a: char, b: string, c: char)
    requires c in Replace(s, a, b)
    ensures c in s || c in b
  {
    if |s| > 0 {
      if c in Replace(Init(s), a, b) {
        ReplaceMember(Init(s), a, b, c);
      }
    }
  }

  lemma {:induction false} StrippedMember(s: string, c: char)
    requires c in LStripMinus(s)
    ensures c in s
  {
    if |s| > 0 && s[0] == '-' {
      StrippedMember(s[1..], c);
    }
  }

  lemma NormalizeMember(t: string, c: char)
    requires c in Normalize(t)
    ensures c in t || c == '.'
  {
    if ',' in t && '.' in t && RFind(t, ',') > RFind(t, '.') {
      ReplaceMember(Replace(t, '.', []), ',', ['.'], c);
      if c in Replace(t, '.', []) {
        ReplaceMember(t, '.', [], c);
      }
    } else if ',' in t {
      if c in Replace(t, ',', ['.']) {
        ReplaceMember(t, ',', ['.'], c);
      }
      if c in Replace(t, ',', []) {
        ReplaceMember(t, ',', [], c);
      }
    }
  }

  lemma FloatNeedsDigit(t: string)
    requires Float(t).Some?
    ensures exists c :: c in t && IsDigit(c)
  {
    var dot := RFind(t, '.');
    var whole := if 0 <= dot < |t| then t[..dot] else t;
    var frac := if 0 <= dot < |t| then t[dot + 1..] else [];
    if |whole| > 0 {
      assert whole[0] in t;
    } else {
      assert frac[0] in t;
    }
  }

  /** A text without a digit has no price: "N/A", "", "call for price". */
  lemma NoDigitNoPrice(s: string)
    requires forall c :: c in s ==> !IsDigit(c)
    ensures NormPrice(Written(s)) == None
  {
    NormPriceOfNumeric(s);
    var text := KeepNumeric(s);
    var unsigned := LStripMinus(text);
    if text != [] && Float(Normalize(unsigned)).Some? {
      FloatNeedsDigit(Normalize(unsigned));
      var c :| c in Normalize(unsigned) && IsDigit(c);
      NormalizeMember(unsigned, c);
      StrippedMember(text, c);
      FilterMember(s, IsNumeric, c);
      assert false;
    }
  }

  /** Nothing has no price, and a number is its own. */
  lemma OtherInputs(v: real)
    ensures NormPrice(Missing) == None && NormPrice(Number(v)) == Some(v)
  {
  }

  // ----- How separators and signs are read

  /** A run of digits contains no other character. */
  lemma DigitalFree(s: string)
    requires AllDigits(s)
    ensures ',' !in s && '.' !in s && '-' !in s && forall c :: c in s ==> IsNumeric(c)
  {
  }

  /** An unsigned numeric text is normalised and read as it stands. */
  lemma Unsigned(t: string)
    requires t != [] && t[0] != '-' && forall c :: c in t ==> IsNumeric(c)
    ensures NormPrice(Written(t)) == Float(Normalize(t))
  {
    hide NormPrice, Float, Normalize, KeepNumeric;
    NormPriceOfNumeric(t);
    KeepAll(t);
    assert LStripMinus(t) == t;
  }

  lemma DigitsJoin(w: string, f: string)
    requires AllDigits(w) && AllDigits(f)
    ensures AllDigits(w + f)
  {
  }

  /** Digits alone are a whole number. */
  lemma DigitsRead(w: string)
    requires AllDigits(w) && w != []
    ensures NormPrice(Written(w)) == Some(DigitsValue(w) as real)
  {
    DigitalFree(w);
    Unsigned(w);
    hide NormPrice, Normalize, DigitsValue;
    FloatWhole(w);
    NormalizePlainText(w);
  }

  lemma NormalizePlainText(t: string)
    requires ',' !in t
    ensures Normalize(t) == t
  {
  }

  lemma FloatWhole(w: string)
    requires AllDigits(w) && w != []
    ensures Float(w) == Some(DigitsValue(w) as real)
  {
    DigitalFree(w);
    RFindRange(w, '.');
    ScaledPlaces(DigitsValue(w));
    hide DigitsValue, RFind, Scaled;
    assert w + [] == w;
  }

  /** Digits in front of a point and behind it, on one side maybe none, are read as a decimal. */
  lemma PointReads(w: string, f: string)
    requires AllDigits(w) && AllDigits(f) && w + f != []
    ensures AllDigits(w + f)
    ensures NormPrice(Written(w + ['.'] + f)) == Some(DigitsValue(w + f) as real / Pow10(|f|) as real)
  {
    DigitsJoin(w, f);
    DigitalFree(w);
    DigitalFree(f);
    var t := w + ['.'] + f;
    Unsigned(t);
    NormalizePlainText(t);
    hide NormPrice, Normalize, DigitsValue, Float, Pow10;
    FloatSplit(w, f);
  }

  /** One comma is a decimal comma before exactly two digits, and otherwise separates groups. */
  lemma CommaReads(w: string, f: string)
    requires AllDigits(w) && AllDigits(f) && w + f != []
    ensures AllDigits(w + f)
    ensures NormPrice(Written(w + [','] + f))
         == Some(if |f| == 2 then DigitsValue(w + f) as real / 100.0 else DigitsValue(w + f) as real)
  {
    DigitsJoin(w, f);
    hide NormPrice, Normalize, DigitsValue, Float, AllDigits;
    CommaUnsigned(w, f);
    if |f| == 2 {
      CommaDecimal(w, f);
    } else {
      CommaDropped(w, f);
      FloatWhole(w + f);
    }
  }

  lemma CommaUnsigned(w: string, f: string)
    requires AllDigits(w) && AllDigits(f)
    ensures NormPrice(Written(w + [','] + f)) == Float(Normalize(w + [','] + f))
  {
    DigitalFree(w);
    DigitalFree(f);
    var t := w + [','] + f;
    hide NormPrice, Normalize, Float, AllDigits;
    Unsigned(t);
  }

  lemma CommaDecimal(w: string, f: string)
    requires AllDigits(w) && AllDigits(f) && |f| == 2
    ensures AllDigits(w + f)
    ensures Float(Normalize(w + [','] + f)) == Some(DigitsValue(w + f) as real / 100.0)
  {
    DigitsJoin(w, f);
    DigitalFree(w);
    DigitalFree(f);
    hide Normalize, DigitsValue, Float, AllDigits;
    CommaOnly(w, f);
    FloatOfCents(w, f);
  }

  lemma FloatOfCents(w: string, f: string)
    requires AllDigits(w) && AllDigits(f) && AllDigits(w + f) && '.' !in f && |f| == 2
    ensures Float(w + ['.'] + f) == Some(DigitsValue(w + f) as real / 100.0)
  {
    hide DigitsValue, Float, AllDigits, Scaled, Pow10;
    FloatSplit(w, f);
    ScaledPlaces(DigitsValue(w + f));
  }

  lemma CommaDropped(w: string, f: string)
    requires AllDigits(w) && AllDigits(f) && |f| != 2
    ensures Normalize(w + [','] + f) == w + f
  {
    hide Replace, RFind, Split;
    DigitalFree(w);
    DigitalFree(f);
    SplitOnce(w, f, ',');
    ReplaceAppend(w + [','], f, ',', []);
    ReplaceAppend(w, [','], ',', []);
    ReplaceAbsent(w, ',', []);
    ReplaceAbsent(f, ',', []);
    ReplaceSingle(',', ',', []);
    assert (w + [','] + f)[|w|] == ',' && w + [] == w;
    assert '.' !in w + [','] + f;
  }

  /** Of two different separators the last one is the decimal point. */
  lemma LastSeparatorDecides(w: string, g: string, f: string)
    requires AllDigits(w) && AllDigits(g) && AllDigits(f) && w + g + f != []
    ensures AllDigits(w + g + f)
    ensures NormPrice(Written(w + [','] + g + ['.'] + f)) == Some(DigitsValue(w + g + f) as real / Pow10(|f|) as real)
    ensures NormPrice(Written(w + ['.'] + g + [','] + f)) == Some(DigitsValue(w + g + f) as real / Pow10(|f|) as real)
  {
    DigitsJoin(w, g);
    DigitsJoin(w + g, f);
    DigitalFree(w);
    DigitalFree(g);
    DigitalFree(f);
    Unsigned(w + [','] + g + ['.'] + f);
    Unsigned(w + ['.'] + g + [','] + f);
    hide NormPrice, Normalize, DigitsValue, Float, Pow10, Replace;
    PointLast(w + [','] + g, f);
    Dropped(w, g, ',');
    CommaLast(w, g, f);
    FloatSplit(w + g, f);
  }

  lemma Dropped(w: string, g: string, c: char)
    requires c !in w && c !in g
    ensures Replace(w + [c] + g, c, []) == w + g
  {
    hide Replace;
    ReplaceAppend(w + [c], g, c, []);
    ReplaceAppend(w, [c], c, []);
    ReplaceAbsent(w, c, []);
    ReplaceAbsent(g, c, []);
    ReplaceSingle(c, c, []);
    assert w + [] == w;
  }

  lemma CommaLast(w: string, g: string, f: string)
    requires AllDigits(w) && AllDigits(g) && AllDigits(f)
    ensures Normalize(w + ['.'] + g + [','] + f) == w + g + ['.'] + f
  {
    hide Replace, RFind, Split;
    DigitalFree(w);
    DigitalFree(g);
    DigitalFree(f);
    var head, tail := w + ['.'] + g, [','] + f;
    var t := head + tail;
    assert t == w + ['.'] + g + [','] + f;
    assert head[|w|] == '.' && tail[0] == ',';
    RFindAppend(head, tail, ',');
    RFindAppend(head, tail, '.');
    RFindRange(head, '.');
    RFindRange(tail, ',');
    ReplaceAppend(head, tail, '.', []);
    ReplaceAbsent(tail, '.', []);
    Dropped(w, g, '.');
    ReplaceAppend(w + g, tail, ',', ['.']);
    ReplaceAbsent(w + g, ',', ['.']);
    CommaTail(f);
    assert ',' in t && '.' in t;
    assert w + g + (['.'] + f) == w + g + ['.'] + f;
  }

  /** Two points are no number. */
  lemma TwoPointsFail(w: string, g: string, f: string)
    requires AllDigits(w) && AllDigits(g) && AllDigits(f)
    ensures NormPrice(Written(w + ['.'] + g + ['.'] + f)) == None
  {
    DigitalFree(w);
    DigitalFree(g);
    DigitalFree(f);
    var t := w + ['.'] + g + ['.'] + f;
    Unsigned(t);
    NormalizePlainText(t);
    hide NormPrice, Normalize, DigitsValue, Float;
    FloatSplit(w + ['.'] + g, f);
    assert (w + ['.'] + g)[|w|] == '.';
  }

  /** Any number of minus signs in front negates the price once. */
  lemma MinusNegates(k: nat, t: string)
    requires k > 0 && (t != [] ==> t[0] != '-') && forall c :: c in t ==> IsNumeric(c)
    ensures NormPrice(Written(seq(k, _ => '-') + t))
         == match NormPrice(Written(t)) case None => None case Some(v) => Some(-v)
  {
    hide NormPrice, KeepNumeric, ParseNumeric;
    var s := seq(k, _ => '-') + t;
    NormPriceOfNumeric(s);
    NormPriceOfNumeric(t);
    KeepAll(s);
    KeepAll(t);
    MinusParsed(k, t);
  }

  lemma MinusParsed(k: nat, t: string)
    requires k > 0 && (t != [] ==> t[0] != '-')
    ensures ParseNumeric(seq(k, _ => '-') + t) == match ParseNumeric(t) case None => None case Some(v) => Some(-v)
  {
    hide Normalize, Float;
    MinusStripped(k, t);
    MinusStripped(0, t);
    assert seq(0, _ => '-') + t == t;
    FloatOfNothing();
    hide LStripMinus;
    assert (seq(k, _ => '-') + t)[0] == '-';
  }

  lemma FloatOfNothing()
    ensures Float(Normalize([])) == None
  {
  }

  lemma {:induction false} MinusStripped(k: nat, t: string)
    requires t != [] ==> t[0] != '-'
    ensures LStripMinus(seq(k, _ => '-') + t) == t
  {
    var s := seq(k, _ => '-') + t;
    if k > 0 {
      MinusStripped(k - 1, t);
      assert s[1..] == seq(k - 1, _ => '-') + t;
    } else {
      assert s == t;
    }
  }

  /** A minus sign behind anything else is no number. */
  lemma InnerMinusFails(t: string)
    requires t != [] && t[0] != '-' && '-' in t && forall c :: c in t ==> IsNumeric(c)
    ensures NormPrice(Written(t)) == None
  {
    Unsigned(t);
    NormalizeKeeps(t, '-');
    hide NormPrice, Normalize;
    FloatDigital(Normalize(t), '-');
  }

  lemma {:induction false} ReplaceKeeps(s: string, a: char, b: string, c: char)
    requires c in s && c != a
    ensures c in Replace(s, a, b)
  {
    InitLast(s);
    if c in Init(s) {
      ReplaceKeeps(Init(s), a, b, c);
    }
  }

  lemma NormalizeKeeps(t: string, c: char)
    requires c in t && c != ',' && c != '.'
    ensures c in Normalize(t)
  {
    ReplaceKeeps(t, '.', [], c);
    ReplaceKeeps(Replace(t, '.', []), ',', ['.'], c);
    ReplaceKeeps(t, ',', [], c);
    ReplaceKeeps(t, ',', ['.'], c);
    hide Replace, RFind, Split;
  }

  lemma FloatDigital(t: string, c: char)
    requires c in t && !IsDigit(c) && c != '.'
    ensures Float(t) == None
  {
    RFindRange(t, '.');
    hide RFind, DigitsValue, Scaled;
    var dot := RFind(t, '.');
    var i :| 0 <= i < |t| && t[i] == c;
    if 0 <= dot {
      assert i < dot ==> t[..dot][i] == c;
      assert i > dot ==> t[dot + 1..][i - dot - 1] == c;
    }
  }

  lemma PlainWithComma(cents: int)
    ensures Replace(PlainAmount(cents), '.', [','])
         == Sign(cents) + (Digits(Abs(cents) / 100) + [','] + Two(Abs(cents) % 100))
  {
    var n, d := Abs(cents) / 100, Abs(cents) % 100;
    hide Digits, Two, Replace;
    DigitsOnly(n);
    TwoFacts(d);
    DotToComma(Sign(cents) + Digits(n), Two(d));
    assert PlainAmount(cents) == (Sign(cents) + Digits(n)) + ['.'] + Two(d);
  }

  lemma DotToComma(head: string, t: string)
    requires '.' !in head && '.' !in t
    ensures Replace(head + ['.'] + t, '.', [',']) == head + [','] + t
  {
    hide Replace;
    ReplaceAppend(head + ['.'], t, '.', [',']);
    ReplaceAppend(head, ['.'], '.', [',']);
    ReplaceAbsent(head, '.', [',']);
    ReplaceAbsent(t, '.', [',']);
    ReplaceSingle('.', '.', [',']);
  }

  // ----- Where the heuristic stops: groups without cents

  lemma {:induction false} SplitLast(s: string, t: string, c: char)
    requires c !in t
    ensures Last(Split(s + [c] + t, c)) == t
  {
    if |t| == 0 {
      assert s + [c] + t == s + [c];
      InitAppend(s, c);
    } else {
      SplitLast(s, Init(t), c);
      InitLast(t);
      assert s + [c] + t == (s + [c] + Init(t)) + [Last(t)];
      InitAppend(s + [c] + Init(t), Last(t));
    }
  }

  lemma FloatOfDigits(n: nat)
    ensures Float(Digits(n)) == Some(n as real)
  {
    DigitsFacts(n);
    DigitsOnly(n);
    RFindRange(Digits(n), '.');
    hide Digits, DigitsValue, RFind, Scaled;
    assert Digits(n) + [] == Digits(n);
    ScaledPlaces(n);
  }

  lemma NormalizeGroups(n: nat)
    ensures Normalize(Grouped(n)) == Digits(n)
  {
    hide Replace, Digits, Three, Split, RFind;
    GroupedFacts(n);
    if n >= 1000 {
      GroupedLastPart(n);
    }
  }

  lemma GroupedLastPart(n: nat)
    requires n >= 1000
    ensures |Last(Split(Grouped(n), ','))| == 3
  {
    ThreeFacts(n % 1000);
    hide Three, Split;
    SplitLast(Grouped(n / 1000), Three(n % 1000), ',');
  }

  /** Comma-grouped whole amounts always read back. */
  lemma WholeGroupsReadBack(n: nat)
    ensures NormPrice(Written(Grouped(n))) == Some(n as real)
  {
    hide Grouped, Digits, Normalize, Float, NormPrice, Replace;
    GroupedFacts(n);
    NormalizeGroups(n);
    FloatOfDigits(n);
    var g := Grouped(n);
    SurroundingsIgnored([], g, []);
    assert [] + g + [] == g;
    assert LStripMinus(g) == g;
  }

  lemma AppendThree(s: string, d: nat)
    requires AllDigits(s) && d < 1000
    ensures AllDigits(s + Three(d)) && DigitsValue(s + Three(d)) == 1000 * DigitsValue(s) + d
  {
    hide DigitsValue, Digit, Three, AllDigits;
    var a, b, c := d / 100, d / 10 % 10, d % 10;
    assert 100 * a + 10 * b + c == d;
    AppendDigit(s, a);
    AppendDigit(s + [Digit(a)], b);
    AppendDigit(s + [Digit(a)] + [Digit(b)], c);
    ThreeAppended(s, d);
  }

  lemma ThreeAppended(s: string, d: nat)
    requires d < 1000
    ensures s + Three(d) == s + [Digit(d / 100)] + [Digit(d / 10 % 10)] + [Digit(d % 10)]
  {
    hide Digit;
  }

  /** Dot groups: the last one is taken for the fraction. */
  lemma FloatOfDotGroups(head: string, d: nat)
    requires d < 1000
    ensures AllDigits(head) ==> Float(head + ['.'] + Three(d)) == Some((1000 * DigitsValue(head) + d) as real / 1000.0)
    ensures !AllDigits(head) ==> Float(head + ['.'] + Three(d)) == None
  {
    hide Three, DigitsValue, Float, Scaled, AllDigits;
    ThreeDigits(d);
    FloatSplit(head, Three(d));
    if AllDigits(head) {
      AppendThree(head, d);
      ScaledPlaces(1000 * DigitsValue(head) + d);
    }
  }

  lemma ThreeDigits(d: nat)
    requires d < 1000
    ensures |Three(d)| == 3 && AllDigits(Three(d)) && '.' !in Three(d)
  {
    DigitIsDigit(d / 100);
    DigitIsDigit(d / 10 % 10);
    DigitIsDigit(d % 10);
  }

  lemma SwappedGroupsStep(n: nat)
    requires n >= 1000
    ensures Replace(Grouped(n), ',', ['.']) == Replace(Grouped(n / 1000), ',', ['.']) + ['.'] + Three(n % 1000)
  {
    ThreeFacts(n % 1000);
    assert Grouped(n) == Grouped(n / 1000) + [','] + Three(n % 1000);
    hide Grouped, Three, Replace;
    ReplaceAppend(Grouped(n / 1000) + [','], Three(n % 1000), ',', ['.']);
    ReplaceAppend(Grouped(n / 1000), [','], ',', ['.']);
    ReplaceSingle(',', ',', ['.']);
    ReplaceAbsent(Three(n % 1000), ',', ['.']);
  }

  /** Dot-grouped whole amounts read back exactly below one thousand: "1.299"
      is taken for a decimal and "1.299.000" is no number at all. */
  lemma DotGroupsReadBackIff(n: nat)
    ensures NormPrice(Written(Replace(Grouped(n), ',', ['.']))) == Some(n as real) <==> n < 1000
  {
    hide Grouped, Digits, Float, NormPrice, Replace, Three, RFind, Split;
    SwappedGroups(n);
    var g := Replace(Grouped(n), ',', ['.']);
    SurroundingsIgnored([], g, []);
    assert [] + g + [] == g;
    assert Normalize(g) == g;
    if n < 1000 {
      FloatOfDigits(n);
    } else {
      SwappedGroupsStep(n);
      SwappedGroups(n / 1000);
      DigitsFacts(n / 1000);
      var head := Replace(Grouped(n / 1000), ',', ['.']);
      FloatOfDotGroups(head, n % 1000);
      if AllDigits(head) {
        assert '.' !in head;
        assert 1000 * (n / 1000) + n % 1000 == n;
        assert n as real / 1000.0 != n as real;
      }
    }
  }
}
