/** Balances are stored as text with two decimals, read with `parseFloat`, combined in doubles and
    written back with `toFixed(2)`. This module models that pipeline on texts and reals, and shows
    that it is integer arithmetic on hundredths of a day. */
module FixedPoint {
  import opened Wrappers
  import opened Text

  /** Available and used days, in hundredths. */
  datatype Figures = Figures(available: int, used: int)

  /** The ledger arithmetic on hundredths; a refund never takes the used days below zero. */
  function Deduct(f: Figures, days: int): Figures {
    Figures(f.available - days, f.used + days)
  }

  function Refund(f: Figures, days: int): Figures {
    Figures(f.available + days, if f.used < days then 0 else f.used - days)
  }

  // ---- toFixed(2) and parseFloat -------------------------------------------------------------

  /** The integer `n` that `Number.prototype.toFixed(2)` prints as `n / 100`: the nearest one, and
      of two equally near ones the larger in magnitude (ECMA-262, section 21.1.3.3). */
  function ToFixed2(x: real): (n: int)
    ensures -0.5 <= n as real - 100.0 * x <= 0.5
    ensures n as real - 100.0 * x == 0.5 ==> 0.0 <= x
    ensures n as real - 100.0 * x == -0.5 ==> x < 0.0
  {
    if x < 0.0 then -(100.0 * -x + 0.5).Floor else (100.0 * x + 0.5).Floor
  }

  lemma ToFixed2Absorbs(x: real, n: int)
    requires -0.5 < 100.0 * x - n as real < 0.5
    ensures ToFixed2(x) == n
  {
    var m := ToFixed2(x);
    assert -1.0 < (m - n) as real < 1.0;
  }

  function TwoDigits(n: nat): string
    requires n < 100
  {
    [('0' as int + n / 10) as char, ('0' as int + n % 10) as char]
  }

  function Unsigned(n: nat): string {
    Digits(n / 100) + "." + TwoDigits(n % 100)
  }

  /** The text of a number of hundredths. */
  function Shown(n: int): string {
    if n < 0 then "-" + Unsigned(-n) else Unsigned(n)
  }

  function DigitPrefix(s: string): (p: string)
    ensures p <= s && AllDigits(p)
  {
    if |s| > 0 && IsDigit(s[0]) then [s[0]] + DigitPrefix(s[1..]) else ""
  }

  /** The number `units / 10^places`. */
  datatype Decimal = Decimal(units: int, places: nat)

  function ParseUnsigned(s: string): Option<Decimal> {
    var whole := DigitPrefix(s);
    var rest := s[|whole|..];
    var fraction := if |rest| > 0 && rest[0] == '.' then DigitPrefix(rest[1..]) else "";
    if whole == "" && fraction == "" then None
    else Some(Decimal(DigitsValue(whole + fraction), |fraction|))
  }

  /** The decimal that `parseFloat` reads from the front of a text; `None` is NaN. */
  function ParseDecimal(s: string): Option<Decimal> {
    if |s| > 0 && s[0] == '-' then
      match ParseUnsigned(s[1..])
      case Some(d) => Some(d.(units := -d.units))
      case None => None
    else ParseUnsigned(s)
  }

  lemma {:induction false} DigitPrefixStops(digits: string, rest: string)
    requires AllDigits(digits)
    requires |rest| > 0 ==> !IsDigit(rest[0])
    ensures DigitPrefix(digits + rest) == digits
  {
    var s := digits + rest;
    if |digits| == 0 {
      assert s == rest;
    } else {
      assert s[0] == digits[0] && s[1..] == digits[1..] + rest;
      DigitPrefixStops(digits[1..], rest);
    }
  }

  lemma ParseParts(whole: string, fraction: string)
    requires |whole| > 0 && AllDigits(whole) && AllDigits(fraction)
    ensures ParseUnsigned(whole + "." + fraction) == Some(Decimal(DigitsValue(whole + fraction), |fraction|))
  {
    var s := whole + "." + fraction;
    assert s == whole + ("." + fraction);
    DigitPrefixStops(whole, "." + fraction);
    assert s[|whole|..] == "." + fraction;
    assert ("." + fraction)[1..] == fraction == fraction + "";
    DigitPrefixStops(fraction, "");
  }

  lemma AppendDigit(s: string, k: nat)
    requires AllDigits(s) && k < 10
    ensures AllDigits(s + [('0' as int + k) as char])
    ensures DigitsValue(s + [('0' as int + k) as char]) == 10 * DigitsValue(s) + k
  {
    var t := s + [('0' as int + k) as char];
    assert t[..|t| - 1] == s;
  }

  lemma UnsignedRoundTrip(n: nat)
    ensures ParseUnsigned(Unsigned(n)) == Some(Decimal(n, 2))
  {
    var whole, fraction := Digits(n / 100), TwoDigits(n % 100);
    DigitsRoundTrip(n / 100);
    AppendDigit(whole, n % 100 / 10);
    AppendDigit(whole + [fraction[0]], n % 10);
    assert whole + fraction == whole + [fraction[0]] + [fraction[1]];
    assert n % 100 % 10 == n % 10;
    ParseParts(whole, fraction);
    assert n == 100 * (n / 100) + n % 100;
  }

  lemma UnsignedHead(n: nat)
    ensures |Unsigned(n)| > 0 && IsDigit(Unsigned(n)[0])
  {
    DigitsRoundTrip(n / 100);
    assert Unsigned(n)[0] == Digits(n / 100)[0];
  }

  lemma ParseNegative(s: string, d: Decimal)
    requires ParseUnsigned(s) == Some(d)
    ensures ParseDecimal("-" + s) == Some(d.(units := -d.units))
  {
    assert ("-" + s)[1..] == s;
  }

  lemma ParsePlain(s: string)
    requires |s| > 0 && IsDigit(s[0])
    ensures ParseDecimal(s) == ParseUnsigned(s)
  {
  }

  /** `parseFloat` after `toFixed(2)` gives back the same hundredths. */
  lemma ShownRoundTrip(n: int)
    ensures ParseDecimal(Shown(n)) == Some(Decimal(n, 2))
  {
    var m := if n < 0 then -n else n;
    UnsignedRoundTrip(m);
    if n < 0 {
      ParseNegative(Unsigned(m), Decimal(m, 2));
    } else {
      UnsignedHead(m);
      ParsePlain(Unsigned(m));
    }
  }

  // ---- doubles -------------------------------------------------------------------------------

  const TWO_53: real := 9007199254740992.0
  /** Ten billion days, far above the DECIMAL(5,2) columns. */
  const LIMIT: int := 1000000000000

  function Abs(x: real): real {
    if x < 0.0 then -x else x
  }

  function Max0(x: real): real {
    if x < 0.0 then 0.0 else x
  }

  /** Double arithmetic: `round` takes a real to a nearby double, `read` a text to the double
      nearest to the decimal at its front, `show` prints a number of hundredths. */
  datatype Doubles = Doubles(round: real -> real, read: string -> real, show: int -> string)

  /** The relative rounding error is at most 2^-53, and reading a shown text rounds its decimal. */
  ghost predicate FaithfulDoubles(fp: Doubles) {
    && (forall x :: RoundedWithin(fp.round, x))
    && (forall n :: fp.read(fp.show(n)) == fp.round(n as real / 100.0))
  }

  predicate RoundedWithin(round: real -> real, x: real) {
    -Abs(x) <= TWO_53 * (round(x) - x) <= Abs(x)
  }

  function Pow10(n: nat): (r: real)
    ensures r > 0.0
  {
    if n == 0 then 1.0 else 10.0 * Pow10(n - 1)
  }

  function Value(d: Decimal): real {
    d.units as real / Pow10(d.places)
  }

  /** `parseFloat` (0 stands for NaN, which no stored text gives). */
  function ParseFloat(round: real -> real): string -> real {
    (s: string) => round(Value(ParseDecimal(s).GetOr(Decimal(0, 0))))
  }

  lemma HundredthsValue(n: int)
    ensures Value(Decimal(n, 2)) == n as real / 100.0
  {
    assert Pow10(1) == 10.0 * Pow10(0) == 10.0;
    assert Pow10(2) == 10.0 * Pow10(1) == 100.0;
  }

  lemma ReadsShown(round: real -> real, n: int)
    ensures ParseFloat(round)(Shown(n)) == round(n as real / 100.0)
  {
    ShownRoundTrip(n);
    HundredthsValue(n);
    var d := ParseDecimal(Shown(n)).GetOr(Decimal(0, 0));
    assert d == Decimal(n, 2);
  }

  /** The arithmetic of the services: `parseFloat` and `toFixed(2)` around one rounding. */
  function Service(round: real -> real): Doubles {
    Doubles(round, ParseFloat(round), (n: int) => Shown(n))
  }

  lemma ServiceIsFaithful(round: real -> real)
    requires forall x :: RoundedWithin(round, x)
    ensures FaithfulDoubles(Service(round))
  {
    var fp := Service(round);
    forall n: int
      ensures fp.read(fp.show(n)) == round(n as real / 100.0)
    {
      ReadsShown(round, n);
    }
  }

  predicate Within(n: int) {
    -LIMIT <= n <= LIMIT
  }

  lemma RoundingError(round: real -> real, x: real, size: real)
    requires RoundedWithin(round, x) && -size <= x <= size
    ensures -size <= TWO_53 * (round(x) - x) <= size
  {
  }

  /** Three roundings move a sum or a difference by far less than half a hundredth. */
  lemma ThreeRoundings(round: real -> real, x: real, y: real)
    requires forall z :: RoundedWithin(round, z)
    requires -10000000000.0 <= x <= 10000000000.0 && -10000000000.0 <= y <= 10000000000.0
    ensures -0.001 < round(round(x) + round(y)) - (x + y) < 0.001
    ensures -0.001 < round(round(x) - round(y)) - (x - y) < 0.001
  {
    RoundingError(round, x, 10000000000.0);
    RoundingError(round, y, 10000000000.0);
    RoundingError(round, round(x) + round(y), 40000000000.0);
    RoundingError(round, round(x) - round(y), 40000000000.0);
  }

  lemma SumAndDifferenceExact(round: real -> real, a: int, b: int)
    requires forall x :: RoundedWithin(round, x)
    requires Within(a) && Within(b)
    ensures ToFixed2(round(round(a as real / 100.0) + round(b as real / 100.0))) == a + b
    ensures ToFixed2(round(round(a as real / 100.0) - round(b as real / 100.0))) == a - b
    ensures ToFixed2(Max0(round(round(a as real / 100.0) - round(b as real / 100.0)))) == if a < b then 0 else a - b
  {
    var x, y := a as real / 100.0, b as real / 100.0;
    ThreeRoundings(round, x, y);
    ToFixed2Absorbs(round(round(x) + round(y)), a + b);
    ToFixed2Absorbs(round(round(x) - round(y)), a - b);
    ToFixed2Absorbs(Max0(round(round(x) - round(y))), if a < b then 0 else a - b);
  }

  /** Comparing stored amounts as doubles compares the hundredths. An amount compared with any other
      number can only be judged otherwise when they differ by less than the rounding error. */
  lemma HundredthsCompareAlike(round: real -> real, n: int, m: int, x: real)
    requires forall z :: RoundedWithin(round, z)
    requires Within(n) && Within(m)
    ensures round(n as real / 100.0) >= round(m as real / 100.0) <==> n >= m
    ensures TWO_53 * Abs(x - n as real / 100.0) > Abs(n as real / 100.0) ==>
      (round(n as real / 100.0) >= x <==> n as real / 100.0 >= x)
  {
    assert RoundedWithin(round, n as real / 100.0) && RoundedWithin(round, m as real / 100.0);
    RoundingError(round, n as real / 100.0, 10000000000.0);
    RoundingError(round, m as real / 100.0, 10000000000.0);
  }

  // ---- texts that JavaScript prints for a number ---------------------------------------------

  /** `String(n / 100)`, which drops trailing zeros: "10", "7.5", "0.25". */
  function Printed(n: int): string {
    if n < 0 then "-" + PrintedUnsigned(0 - n) else PrintedUnsigned(n)
  }

  function PrintedUnsigned(n: nat): string {
    if n % 100 == 0 then Digits(n / 100)
    else if n % 10 == 0 then Digits(n / 100) + "." + [('0' as int + n / 10 % 10) as char]
    else Unsigned(n)
  }

  lemma ParseWhole(n: nat)
    ensures ParseUnsigned(Digits(n)) == Some(Decimal(n, 0))
  {
    var s := Digits(n);
    DigitsRoundTrip(n);
    assert s + "" == s;
    DigitPrefixStops(s, "");
    assert s[|s|..] == "";
  }

  lemma ParseTenths(whole: nat, tenths: nat)
    requires tenths < 10
    ensures ParseUnsigned(Digits(whole) + "." + [('0' as int + tenths) as char]) == Some(Decimal(10 * whole + tenths, 1))
  {
    var digit := [('0' as int + tenths) as char];
    DigitsRoundTrip(whole);
    AppendDigit(Digits(whole), tenths);
    AppendDigit("", tenths);
    assert "" + digit == digit;
    ParseParts(Digits(whole), digit);
  }

  lemma WholeAndTenthsValue(n: int)
    ensures Value(Decimal(n, 0)) == n as real && Value(Decimal(n, 1)) == n as real / 10.0
  {
    assert Pow10(1) == 10.0 * Pow10(0) == 10.0;
  }

  /** The decimal that stands in `String(n / 100)`. */
  function Trimmed(n: nat): Decimal {
    if n % 100 == 0 then Decimal(n / 100, 0)
    else if n % 10 == 0 then Decimal(n / 10, 1)
    else Decimal(n, 2)
  }

  lemma TrimmedValue(n: nat)
    ensures Value(Trimmed(n)) == n as real / 100.0
  {
    WholeAndTenthsValue(n / 100);
    WholeAndTenthsValue(n / 10);
    HundredthsValue(n);
    if n % 100 == 0 {
      assert n == 100 * (n / 100);
    } else if n % 10 == 0 {
      assert n == 10 * (n / 10);
    }
  }

  lemma PrintedUnsignedParses(n: nat)
    ensures ParseUnsigned(PrintedUnsigned(n)) == Some(Trimmed(n))
    ensures |PrintedUnsigned(n)| > 0 && IsDigit(PrintedUnsigned(n)[0])
  {
    DigitsRoundTrip(n / 100);
    if n % 100 == 0 {
      ParseWhole(n / 100);
    } else if n % 10 == 0 {
      ParseTenths(n / 100, n / 10 % 10);
      assert n / 10 == 10 * (n / 100) + n / 10 % 10;
    } else {
      UnsignedRoundTrip(n);
    }
  }

  lemma NegatedValue(d: Decimal)
    ensures Value(d.(units := -d.units)) == -Value(d)
  {
    var u, p := d.units as real, Pow10(d.places);
    assert (-u) / p + u / p == (-u + u) / p;
  }

  lemma ReadsValue(round: real -> real, s: string, d: Decimal, x: real)
    requires ParseDecimal(s) == Some(d) && Value(d) == x
    ensures ParseFloat(round)(s) == round(x)
  {
    assert ParseDecimal(s).GetOr(Decimal(0, 0)) == d;
  }

  lemma ReadsPrintedUnsigned(round: real -> real, n: nat)
    ensures ParseFloat(round)(PrintedUnsigned(n)) == round(n as real / 100.0)
    ensures ParseFloat(round)("-" + PrintedUnsigned(n)) == round(-(n as real / 100.0))
  {
    var s, d := PrintedUnsigned(n), Trimmed(n);
    PrintedUnsignedParses(n);
    TrimmedValue(n);
    ParsePlain(s);
    ReadsValue(round, s, d, n as real / 100.0);
    ParseNegative(s, d);
    NegatedValue(d);
    ReadsValue(round, "-" + s, d.(units := -d.units), -(n as real / 100.0));
  }

  /** What the HCM reports and hydration stores, `String(available)`, reads as the same hundredths. */
  lemma ReadsPrinted(round: real -> real, n: int)
    ensures ParseFloat(round)(Printed(n)) == round(n as real / 100.0)
  {
    if n < 0 {
      ReadsPrintedUnsigned(round, 0 - n);
      assert -((0 - n) as real / 100.0) == n as real / 100.0;
    } else {
      ReadsPrintedUnsigned(round, n);
    }
  }

  // ---- the stored texts over a run -----------------------------------------------------------

  datatype StoredFigures = StoredFigures(available: string, used: string)

  function Stored(fp: Doubles, f: Figures): StoredFigures {
    StoredFigures(fp.show(f.available), fp.show(f.used))
  }

  function AddText(fp: Doubles, a: string, b: string): string {
    fp.show(ToFixed2(fp.round(fp.read(a) + fp.read(b))))
  }

  function SubtractText(fp: Doubles, a: string, b: string): string {
    fp.show(ToFixed2(fp.round(fp.read(a) - fp.read(b))))
  }

  function SubtractToZeroText(fp: Doubles, a: string, b: string): string {
    fp.show(ToFixed2(Max0(fp.round(fp.read(a) - fp.read(b)))))
  }

  /** Adding or subtracting two stored amounts in doubles and rounding to two decimals is exact. */
  lemma TextArithmeticExact(fp: Doubles, a: int, b: int)
    requires FaithfulDoubles(fp) && Within(a) && Within(b)
    ensures AddText(fp, fp.show(a), fp.show(b)) == fp.show(a + b)
    ensures SubtractText(fp, fp.show(a), fp.show(b)) == fp.show(a - b)
    ensures SubtractToZeroText(fp, fp.show(a), fp.show(b)) == fp.show(if a < b then 0 else a - b)
  {
    SumAndDifferenceExact(fp.round, a, b);
  }

  /** What `updateUsedBalance` writes, with the days read from the request's stored text. */
  function DeductStored(fp: Doubles, s: StoredFigures, days: string): StoredFigures {
    StoredFigures(SubtractText(fp, s.available, days), AddText(fp, s.used, days))
  }

  /** What `refundBalance` writes. */
  function RefundStored(fp: Doubles, s: StoredFigures, days: string): StoredFigures {
    StoredFigures(AddText(fp, s.available, days), SubtractToZeroText(fp, s.used, days))
  }

  datatype Change = Deduction(days: int) | Refunding(days: int)

  function ApplyStored(fp: Doubles, s: StoredFigures, change: Change): StoredFigures {
    match change
    case Deduction(days) => DeductStored(fp, s, fp.show(days))
    case Refunding(days) => RefundStored(fp, s, fp.show(days))
  }

  function RunStored(fp: Doubles, s: StoredFigures, changes: seq<Change>): StoredFigures
    decreases |changes|
  {
    if |changes| == 0 then s else RunStored(fp, ApplyStored(fp, s, changes[0]), changes[1..])
  }

  function Apply(f: Figures, change: Change): Figures {
    match change
    case Deduction(days) => Deduct(f, days)
    case Refunding(days) => Refund(f, days)
  }

  function RunHundredths(f: Figures, changes: seq<Change>): Figures
    decreases |changes|
  {
    if |changes| == 0 then f else RunHundredths(Apply(f, changes[0]), changes[1..])
  }

  function Volume(changes: seq<Change>): nat {
    if |changes| == 0 then 0
    else (if changes[0].days < 0 then -changes[0].days else changes[0].days) + Volume(changes[1..])
  }

  predicate RoomFor(f: Figures, changes: seq<Change>) {
    var volume := Volume(changes);
    && -LIMIT <= f.available - volume && f.available + volume <= LIMIT
    && -LIMIT <= f.used - volume && f.used + volume <= LIMIT
  }

  /** The texts read as the doubles nearest to these hundredths, however they are written. */
  ghost predicate Reads(fp: Doubles, s: StoredFigures, f: Figures) {
    && fp.read(s.available) == fp.round(f.available as real / 100.0)
    && fp.read(s.used) == fp.round(f.used as real / 100.0)
  }

  lemma ChangeStoredIsExact(fp: Doubles, s: StoredFigures, f: Figures, change: Change)
    requires FaithfulDoubles(fp) && Reads(fp, s, f) && Within(f.available) && Within(f.used) && Within(change.days)
    ensures ApplyStored(fp, s, change) == Stored(fp, Apply(f, change))
  {
    SumAndDifferenceExact(fp.round, f.available, change.days);
    SumAndDifferenceExact(fp.round, f.used, change.days);
  }

  /** Any run of deductions and refunds on the stored texts, with the double rounding of every
      operation, stores exactly what integer arithmetic on hundredths gives: errors never add up. The
      texts it starts from may be written as `toFixed` or as `String` prints them. */
  lemma {:induction false} StoredRunIsExact(fp: Doubles, s: StoredFigures, f: Figures, changes: seq<Change>)
    requires FaithfulDoubles(fp) && Reads(fp, s, f) && RoomFor(f, changes)
    ensures Reads(fp, RunStored(fp, s, changes), RunHundredths(f, changes))
    ensures |changes| > 0 ==> RunStored(fp, s, changes) == Stored(fp, RunHundredths(f, changes))
    decreases |changes|
  {
    if |changes| > 0 {
      ChangeStoredIsExact(fp, s, f, changes[0]);
      StoredRunIsExact(fp, ApplyStored(fp, s, changes[0]), Apply(f, changes[0]), changes[1..]);
    }
  }

  /** A hydrated row is such a start. */
  lemma HydratedTextsRead(round: real -> real, f: Figures)
    ensures Reads(Service(round), StoredFigures(Printed(f.available), Printed(f.used)), f)
  {
    ReadsPrinted(round, f.available);
    ReadsPrinted(round, f.used);
  }
}
