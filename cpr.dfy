/** Danish CPR numbers: the ten characters `ddmmyy` + a 7th digit that
    fixes the century + three more digits. This module holds the pure parts
    of the plausibility engine: decimal parsing, the century rule that turns
    a CPR into a birth date, the weighted modulus-11 checksum with its
    exception dates, the form validator and the table of legal 7th digits. */
module Cpr {
  import opened Wrappers

  /** The two exceptions `get_birth_date` can raise, and the one the
      checksum raises on a non-digit. */
  datatype PyError = ValueError | IndexError

  // ---------------------------------------------------------------------
  // Calendar dates (Python's `datetime.date`)
  // ---------------------------------------------------------------------

  datatype Date = Date(year: int, month: int, day: int)

  predicate IsLeapYear(y: int) {
    (y % 4 == 0 && y % 100 != 0) || y % 400 == 0
  }

  function DaysInMonth(y: int, m: int): (n: int)
    requires 1 <= m <= 12
    ensures 28 <= n <= 31
  {
    if m == 2 then (if IsLeapYear(y) then 29 else 28)
    else if m == 4 || m == 6 || m == 9 || m == 11 then 30
    else 31
  }

  /** What `date(day=, month=, year=)` accepts without raising ValueError. */
  predicate ValidDate(d: Date) {
    1 <= d.year <= 9999 && 1 <= d.month <= 12 && 1 <= d.day <= DaysInMonth(d.year, d.month)
  }

  /** `a > b` on dates. */
  predicate After(a: Date, b: Date) {
    a.year > b.year
    || (a.year == b.year && a.month > b.month)
    || (a.year == b.year && a.month == b.month && a.day > b.day)
  }

  /** Birth dates whose CPR numbers were issued without a valid check digit. */
  const ExceptionDates: set<Date> := {
    Date(1960, 1, 1), Date(1962, 1, 1), Date(1964, 1, 1), Date(1965, 1, 1),
    Date(1966, 1, 1), Date(1967, 1, 1), Date(1969, 1, 1), Date(1970, 1, 1),
    Date(1974, 1, 1), Date(1975, 1, 1), Date(1978, 1, 1), Date(1980, 1, 1),
    Date(1981, 1, 1), Date(1982, 1, 1), Date(1983, 1, 1), Date(1984, 1, 1),
    Date(1985, 1, 1), Date(1986, 1, 1), Date(1987, 1, 1), Date(1988, 1, 1),
    Date(1989, 1, 1), Date(1990, 1, 1), Date(1991, 1, 1), Date(1992, 1, 1),
    Date(1994, 1, 1), Date(1995, 1, 1)
  }

  // ---------------------------------------------------------------------
  // Digits, `int(...)` and `str(...)` on decimal strings
  // ---------------------------------------------------------------------

  predicate IsDigit(c: char) { '0' <= c <= '9' }

  predicate AllDigits(s: string) {
    forall i :: 0 <= i < |s| ==> IsDigit(s[i])
  }

  function DigitValue(c: char): (v: int)
    requires IsDigit(c)
    ensures 0 <= v <= 9
  {
    c as int - '0' as int
  }

  function DigitChar(n: int): (c: char)
    requires 0 <= n <= 9
    ensures IsDigit(c) && DigitValue(c) == n
  {
    ('0' as int + n) as char
  }

  /** Python's `s[i:j]` for 0 <= i <= j: both ends are clamped to the length. */
  function Slice(s: string, i: nat, j: nat): string
    requires i <= j
  {
    var lo := if i < |s| then i else |s|;
    var hi := if j < |s| then j else |s|;
    s[lo..hi]
  }

  /** `int(s)` on a string of decimal digits; None where `int` raises ValueError. */
  function ParseDecimal(s: string): (r: Option<nat>)
    ensures r.Some? <==> s != [] && AllDigits(s)
  {
    if s == [] || !IsDigit(s[|s| - 1]) then None
    else if |s| == 1 then Some(DigitValue(s[0]))
    else
      match ParseDecimal(s[..|s| - 1])
      case None => None
      case Some(v) => Some(10 * v + DigitValue(s[|s| - 1]))
  }

  /** `"%02d" % n`, as `strftime` writes days, months and two-digit years. */
  function Pad2(n: int): (s: string)
    requires 0 <= n < 100
    ensures |s| == 2 && AllDigits(s)
  {
    [DigitChar(n / 10), DigitChar(n % 10)]
  }

  /** `str(n).zfill(3)`. */
  function Pad3(n: int): (s: string)
    requires 0 <= n < 1000
    ensures |s| == 3 && AllDigits(s)
  {
    [DigitChar(n / 100), DigitChar((n / 10) % 10), DigitChar(n % 10)]
  }

  lemma ParsePad2(n: int)
    requires 0 <= n < 100
    ensures ParseDecimal(Pad2(n)) == Some(n)
  {
    var s := Pad2(n);
    assert s[..1] == [s[0]];
  }

  lemma ParsePad3(n: int)
    requires 0 <= n < 1000
    ensures ParseDecimal(Pad3(n)) == Some(n)
  {
    var s := Pad3(n);
    assert s[..2][..1] == [s[0]];
    assert s[..2] == [s[0], s[1]];
    assert ParseDecimal(s[..2]) == Some(n / 10);
    assert n / 10 == 10 * (n / 100) + (n / 10) % 10;
    assert n == 10 * (n / 10) + n % 10;
  }

  lemma Pad2Parse(s: string)
    requires |s| == 2 && AllDigits(s)
    ensures ParseDecimal(s).value < 100 && Pad2(ParseDecimal(s).value) == s
  {
    assert s[..1] == [s[0]];
  }

  lemma Pad3Parse(s: string)
    requires |s| == 3 && AllDigits(s)
    ensures ParseDecimal(s).value < 1000 && Pad3(ParseDecimal(s).value) == s
  {
    assert s[..2][..1] == [s[0]];
    assert s[..2] == [s[0], s[1]];
    var a, b, c := DigitValue(s[0]), DigitValue(s[1]), DigitValue(s[2]);
    var n := 100 * a + 10 * b + c;
    assert ParseDecimal(s[..2]) == Some(10 * a + b);
    assert ParseDecimal(s) == Some(n);
    ThreeDigits(a, b, c);
    assert Pad3(n) == [DigitChar(a), DigitChar(b), DigitChar(c)];
  }

  lemma ThreeDigits(a: int, b: int, c: int)
    requires 0 <= a <= 9 && 0 <= b <= 9 && 0 <= c <= 9
    ensures var n := 100 * a + 10 * b + c;
      n < 1000 && n / 100 == a && (n / 10) % 10 == b && n % 10 == c
  {
    var n := 100 * a + 10 * b + c;
    assert n == 10 * (10 * a + b) + c;
    assert n / 10 == 10 * a + b;
  }

  // ---------------------------------------------------------------------
  // The century rule and get_birth_date
  // ---------------------------------------------------------------------

  /** The four-digit year for two-digit year `yy` and 7th digit `digit`.
      `nineCutoff` is the last two-digit year that a 9 puts in the 2000s
      minus one: the source writes `yy > 37`, the CPR office's table
      (and `Legal7s` below) mean `yy > 36`. */
  function FullYear(digit: int, yy: int, nineCutoff: int): int {
    if 0 <= digit <= 3 then 1900 + yy
    else if digit == 4 then (if yy > 36 then 1900 + yy else 2000 + yy)
    else if 5 <= digit <= 8 then (if yy > 57 then 1800 + yy else 2000 + yy)
    else if digit == 9 then (if yy > nineCutoff then 1900 + yy else 2000 + yy)
    else yy
  }

  /** The birth years a 7th digit may stand for, per the CPR office's table. */
  predicate InWindow(digit: int, year: int) {
    if 0 <= digit <= 3 then 1900 <= year <= 1999
    else if digit == 4 || digit == 9 then 1937 <= year <= 2036
    else if 5 <= digit <= 8 then (1858 <= year <= 1899) || (2000 <= year <= 2057)
    else false
  }

  /** `get_birth_date`, parameterised by the cut-off for the digit 9. The
      three two-character slices are parsed before `cpr[6]` is read, so a
      bad slice raises ValueError even when the string is too short. */
  function BirthDate(cpr: string, nineCutoff: int): Result<Date, PyError> {
    var day := ParseDecimal(Slice(cpr, 0, 2));
    var month := ParseDecimal(Slice(cpr, 2, 4));
    var yy := ParseDecimal(Slice(cpr, 4, 6));
    if day.None? || month.None? || yy.None? then Err(ValueError)
    else if |cpr| < 7 then Err(IndexError)
    else if !IsDigit(cpr[6]) then Err(ValueError)
    else
      var d := Date(FullYear(DigitValue(cpr[6]), yy.value, nineCutoff), month.value, day.value);
      if ValidDate(d) then Ok(d) else Err(ValueError)
  }

  /** `get_birth_date` exactly as written (`yy > 37` for the digit 9). A
      date it reads is valid, is what `strftime("%d%m%y")` writes back as
      the first six characters, and lies in the window of the 7th digit,
      except 2037 for a 9. */
  function GetBirthDateAsWritten(cpr: string): (r: Result<Date, PyError>)
    ensures r.Ok? ==> ValidDate(r.value) && |cpr| >= 7 && IsDigit(cpr[6]) && Ddmmyy(r.value) == cpr[..6]
    ensures r.Ok? ==> InWindow(DigitValue(cpr[6]), r.value.year) || (cpr[6] == '9' && r.value.year == 2037)
  {
    BirthDateRead(cpr, 37);
    BirthDate(cpr, 37)
  }

  /** `get_birth_date` with the digit-9 cut-off of the CPR office's table,
      for which the century rule and the plausibility lemmas are stated. A
      date it reads always lies in the window of the 7th digit. */
  function GetBirthDate(cpr: string): (r: Result<Date, PyError>)
    ensures r.Ok? ==> ValidDate(r.value) && |cpr| >= 7 && IsDigit(cpr[6]) && Ddmmyy(r.value) == cpr[..6]
    ensures r.Ok? ==> InWindow(DigitValue(cpr[6]), r.value.year)
  {
    BirthDateRead(cpr, 36);
    BirthDate(cpr, 36)
  }

  lemma BirthDateRead(cpr: string, nineCutoff: int)
    requires nineCutoff == 36 || nineCutoff == 37
    ensures var r := BirthDate(cpr, nineCutoff);
      r.Ok? ==>
        ValidDate(r.value) && |cpr| >= 7 && IsDigit(cpr[6]) && Ddmmyy(r.value) == cpr[..6] &&
        (InWindow(DigitValue(cpr[6]), r.value.year) || (nineCutoff == 37 && cpr[6] == '9' && r.value.year == 2037))
  {
    BirthDateDigits(cpr, nineCutoff);
    BirthDateWindow(cpr, nineCutoff);
  }

  /** A date read back gives the first six characters. */
  lemma BirthDateDigits(cpr: string, nineCutoff: int)
    requires nineCutoff == 36 || nineCutoff == 37
    ensures var r := BirthDate(cpr, nineCutoff);
      r.Ok? ==> ValidDate(r.value) && |cpr| >= 7 && IsDigit(cpr[6]) && Ddmmyy(r.value) == cpr[..6]
  {
    var r := BirthDate(cpr, nineCutoff);
    if r.Ok? {
      var d := r.value;
      assert Slice(cpr, 0, 2) == cpr[0..2] && Slice(cpr, 2, 4) == cpr[2..4] && Slice(cpr, 4, 6) == cpr[4..6];
      Pad2Parse(cpr[0..2]);
      Pad2Parse(cpr[2..4]);
      Pad2Parse(cpr[4..6]);
      var yy := ParseDecimal(cpr[4..6]).value;
      FullYearEndsIn(DigitValue(cpr[6]), yy, nineCutoff);
      assert Ddmmyy(d) == cpr[0..2] + cpr[2..4] + Pad2(yy);
      assert cpr[..6] == cpr[0..2] + cpr[2..4] + cpr[4..6];
    }
  }

  lemma FullYearEndsIn(digit: int, yy: int, nineCutoff: int)
    requires 0 <= digit <= 9 && 0 <= yy < 100
    ensures FullYear(digit, yy, nineCutoff) % 100 == yy
  {
  }

  /** A date read lies in the window of the 7th digit. */
  lemma BirthDateWindow(cpr: string, nineCutoff: int)
    requires nineCutoff == 36 || nineCutoff == 37
    ensures var r := BirthDate(cpr, nineCutoff);
      r.Ok? ==>
        |cpr| >= 7 && IsDigit(cpr[6]) &&
        (InWindow(DigitValue(cpr[6]), r.value.year) || (nineCutoff == 37 && cpr[6] == '9' && r.value.year == 2037))
  {
    var r := BirthDate(cpr, nineCutoff);
    if r.Ok? {
      assert Slice(cpr, 4, 6) == cpr[4..6];
      Pad2Parse(cpr[4..6]);
      CenturyRule(DigitValue(cpr[6]), ParseDecimal(cpr[4..6]).value);
    }
  }

  /** The date `cpr_check` and `_form_validator` work with: as written
      (`get_birth_date` as the source has it), or with the corrected
      cut-off. */
  function CheckedBirthDate(cpr: string, asWritten: bool): Result<Date, PyError> {
    if asWritten then GetBirthDateAsWritten(cpr) else GetBirthDate(cpr)
  }

  /** The two cut-offs accept the same strings, and read the same date
      except for a 7th digit 9 with year 37: 1937 corrected, 2037 as
      written, and neither is an exception date. */
  lemma CutoffsAgree(cpr: string)
    ensures GetBirthDate(cpr).Ok? <==> GetBirthDateAsWritten(cpr).Ok?
    ensures GetBirthDate(cpr).Ok? && GetBirthDate(cpr) != GetBirthDateAsWritten(cpr) ==>
      cpr[6] == '9' && GetBirthDate(cpr).value.year == 1937 &&
      GetBirthDateAsWritten(cpr).value == GetBirthDate(cpr).value.(year := 2037) &&
      GetBirthDate(cpr).value !in ExceptionDates && GetBirthDateAsWritten(cpr).value !in ExceptionDates
  {
    CutoffsAgreeRead(cpr);
    assert GetBirthDate(cpr) == BirthDate(cpr, 36);
    assert GetBirthDateAsWritten(cpr) == BirthDate(cpr, 37);
  }

  lemma CutoffsAgreeRead(cpr: string)
    ensures BirthDate(cpr, 36).Ok? <==> BirthDate(cpr, 37).Ok?
    ensures BirthDate(cpr, 36).Ok? && BirthDate(cpr, 36) != BirthDate(cpr, 37) ==>
      |cpr| >= 7 && cpr[6] == '9' && BirthDate(cpr, 36).value.year == 1937 &&
      BirthDate(cpr, 37).value == BirthDate(cpr, 36).value.(year := 2037) &&
      BirthDate(cpr, 36).value !in ExceptionDates && BirthDate(cpr, 37).value !in ExceptionDates
  {
    var day := ParseDecimal(Slice(cpr, 0, 2));
    var month := ParseDecimal(Slice(cpr, 2, 4));
    var yy := ParseDecimal(Slice(cpr, 4, 6));
    if day.Some? && month.Some? && yy.Some? && |cpr| >= 7 && IsDigit(cpr[6]) {
      var digit := DigitValue(cpr[6]);
      if digit == 9 && yy.value == 37 && 1 <= month.value <= 12 {
        assert DaysInMonth(1937, month.value) == DaysInMonth(2037, month.value);
      }
    }
  }

  /** The corrected century rule picks, for every 7th digit and two-digit
      year, the one year of that digit's window that ends in those digits. */
  lemma CenturyRule(digit: int, yy: int)
    requires 0 <= digit <= 9 && 0 <= yy < 100
    ensures InWindow(digit, FullYear(digit, yy, 36))
    ensures FullYear(digit, yy, 36) % 100 == yy
    ensures forall y :: InWindow(digit, y) && y % 100 == yy ==> y == FullYear(digit, yy, 36)
  {
    var fy := FullYear(digit, yy, 36);
    forall y | InWindow(digit, y) && y % 100 == yy
      ensures y == fy
    {
      if 1800 <= y < 1900 {
        assert y == 1800 + yy;
      } else if 1900 <= y < 2000 {
        assert y == 1900 + yy;
      } else {
        assert y == 2000 + yy;
      }
    }
  }

  /** As written, the digit 9 with year 37 leaves its window: `...379...`
      is read as 2037, although the same file lists 9 as a legal 7th digit
      for 1937 and not for 2037. */
  lemma AsWrittenNineLeavesWindow()
    ensures FullYear(9, 37, 37) == 2037 && !InWindow(9, 2037) && InWindow(9, 1937)
    ensures GetBirthDateAsWritten("0101379000") == Ok(Date(2037, 1, 1))
    ensures GetBirthDate("0101379000") == Ok(Date(1937, 1, 1))
  {
    var s := "0101379000";
    assert Slice(s, 0, 2) == "01" && Slice(s, 2, 4) == "01" && Slice(s, 4, 6) == "37";
    assert "01"[..1] == "0" && "37"[..1] == "3";
  }

  /** The characters `ddmmyy` that `strftime("%d%m%y")` writes for a date. */
  function Ddmmyy(d: Date): (s: string)
    requires ValidDate(d)
    ensures |s| == 6 && AllDigits(s)
  {
    Pad2(d.day) + Pad2(d.month) + Pad2(d.year % 100)
  }

  /** The CPR with birth date `d`, 7th digit `digit` and serial `serial`. */
  function CprOf(d: Date, digit: int, serial: int): (s: string)
    requires ValidDate(d) && 0 <= digit <= 9 && 0 <= serial < 1000
    ensures |s| == 10 && AllDigits(s)
  {
    Ddmmyy(d) + [DigitChar(digit)] + Pad3(serial)
  }

  /** Writing a date into a CPR and reading it back with the corrected
      century rule gives the date again, whenever the 7th digit is one
      the CPR office allows for that year. */
  lemma {:induction false} BirthDateRoundTrip(d: Date, digit: int, serial: int)
    requires ValidDate(d) && 0 <= digit <= 9 && 0 <= serial < 1000
    requires InWindow(digit, d.year)
    ensures GetBirthDate(CprOf(d, digit, serial)) == Ok(d)
  {
    var s := CprOf(d, digit, serial);
    assert Slice(s, 0, 2) == Pad2(d.day);
    assert Slice(s, 2, 4) == Pad2(d.month);
    assert Slice(s, 4, 6) == Pad2(d.year % 100);
    ParsePad2(d.day);
    ParsePad2(d.month);
    ParsePad2(d.year % 100);
    CenturyRule(digit, d.year % 100);
    assert s[6] == DigitChar(digit);
  }

  /** Conversely, every ten-digit CPR with a valid birth date is the CPR
      of that date, its own 7th digit and its last three digits, and its
      7th digit lies in the window of the year read. */
  lemma {:induction false} ParsedCprRoundTrip(cpr: string)
    requires |cpr| == 10 && AllDigits(cpr) && GetBirthDate(cpr).Ok?
    ensures InWindow(DigitValue(cpr[6]), GetBirthDate(cpr).value.year)
    ensures ParseDecimal(cpr[7..]).value < 1000
    ensures cpr == CprOf(GetBirthDate(cpr).value, DigitValue(cpr[6]), ParseDecimal(cpr[7..]).value)
  {
    var d := GetBirthDate(cpr).value;
    var digit := DigitValue(cpr[6]);
    assert Slice(cpr, 0, 2) == cpr[0..2];
    assert Slice(cpr, 2, 4) == cpr[2..4];
    assert Slice(cpr, 4, 6) == cpr[4..6];
    Pad2Parse(cpr[0..2]);
    Pad2Parse(cpr[2..4]);
    Pad2Parse(cpr[4..6]);
    Pad3Parse(cpr[7..]);
    var yy := ParseDecimal(cpr[4..6]).value;
    CenturyRule(digit, yy);
    assert d.year % 100 == yy;
    assert DigitChar(digit) == cpr[6];
    assert cpr == cpr[0..2] + cpr[2..4] + cpr[4..6] + [cpr[6]] + cpr[7..];
  }

  // ---------------------------------------------------------------------
  // Modulus 11
  // ---------------------------------------------------------------------

  const Mod11Weights: seq<int> := [4, 3, 2, 7, 6, 5, 4, 3, 2, 1]

  /** `sum(int(c) * v for c, v in zip(s, w))`; None where an `int(c)`
      raises ValueError. `zip` stops at the shorter of the two. */
  function WeightedSum(s: string, w: seq<int>): Option<int> {
    if s == [] || w == [] then Some(0)
    else if !IsDigit(s[0]) then None
    else
      match WeightedSum(s[1..], w[1..])
      case None => None
      case Some(t) => Some(DigitValue(s[0]) * w[0] + t)
  }

  /** `modulus11_check_raw`; None where it raises ValueError. */
  function Mod11Raw(cpr: string): (r: Option<bool>)
    ensures r.Some? <==> forall i :: 0 <= i < |cpr| && i < 10 ==> IsDigit(cpr[i])
  {
    WeightedSumDefined(cpr, Mod11Weights);
    match WeightedSum(cpr, Mod11Weights)
    case None => None
    case Some(t) => Some(t % 11 == 0)
  }

  /** Only the first `|w|` characters are read, and any digits there sum. */
  lemma {:induction false} WeightedSumDefined(s: string, w: seq<int>)
    ensures WeightedSum(s, w).Some? <==> forall i :: 0 <= i < |s| && i < |w| ==> IsDigit(s[i])
  {
    if s != [] && w != [] {
      WeightedSumDefined(s[1..], w[1..]);
      if WeightedSum(s, w).Some? {
        forall i | 0 <= i < |s| && i < |w| ensures IsDigit(s[i]) {
          if i > 0 { assert s[1..][i - 1] == s[i]; }
        }
      } else if IsDigit(s[0]) {
        var i :| 0 <= i < |s[1..]| && i < |w[1..]| && !IsDigit(s[1..][i]);
        assert !IsDigit(s[i + 1]);
      }
    }
  }

  /** Appending one digit within the weights adds that digit times its weight. */
  lemma {:induction false} WeightedSumSnoc(s: string, c: char, w: seq<int>)
    requires |s| < |w| && AllDigits(s) && IsDigit(c)
    ensures WeightedSum(s, w).Some? && WeightedSum(s + [c], w).Some?
    ensures WeightedSum(s + [c], w).value == WeightedSum(s, w).value + DigitValue(c) * w[|s|]
  {
    if s == [] {
      assert [c][1..] == [];
    } else {
      assert (s + [c])[1..] == s[1..] + [c];
      WeightedSumSnoc(s[1..], c, w[1..]);
    }
  }

  /** A nine-digit prefix has at most one check digit that passes. */
  lemma CheckDigitUnique(prefix: string, c1: char, c2: char)
    requires |prefix| == 9 && AllDigits(prefix) && IsDigit(c1) && IsDigit(c2)
    requires Mod11Raw(prefix + [c1]) == Some(true) && Mod11Raw(prefix + [c2]) == Some(true)
    ensures c1 == c2
  {
    WeightedSumSnoc(prefix, c1, Mod11Weights);
    WeightedSumSnoc(prefix, c2, Mod11Weights);
    var t := WeightedSum(prefix, Mod11Weights).value;
    var a, b := DigitValue(c1), DigitValue(c2);
    assert (t + a) % 11 == 0 && (t + b) % 11 == 0;
    assert (t + a) == 11 * ((t + a) / 11);
    assert (t + b) == 11 * ((t + b) / 11);
    assert a - b == 11 * ((t + a) / 11 - (t + b) / 11);
    assert a == b;
  }

  datatype Mod11Verdict = Verdict(passed: bool, reason: string)

  /** `modulus11_check`, dating the CPR with `get_birth_date` as written: a
      date that cannot be read gives a failed verdict, an exception date
      passes whatever its check digit, and otherwise the raw checksum
      decides (raising ValueError on a non-digit there). The corrected
      cut-off gives the same verdicts. */
  function Mod11Check(cpr: string): (r: Result<Mod11Verdict, PyError>)
    ensures GetBirthDateAsWritten(cpr).Err? ==> r == Ok(Verdict(false, "malformed birth_date"))
    ensures |cpr| < 7 ==> r == Ok(Verdict(false, "malformed birth_date"))
    ensures GetBirthDateAsWritten(cpr).Ok? && GetBirthDateAsWritten(cpr).value in ExceptionDates ==>
      r == Ok(Verdict(true, "in exception_date"))
    ensures GetBirthDateAsWritten(cpr).Ok? && GetBirthDateAsWritten(cpr).value !in ExceptionDates ==>
      (r.Ok? <==> Mod11Raw(cpr).Some?) && (r.Ok? ==> r.value == Verdict(Mod11Raw(cpr).value, "due to modulus11"))
    ensures GetBirthDate(cpr).Err? ==> r == Ok(Verdict(false, "malformed birth_date"))
    ensures GetBirthDate(cpr).Ok? && GetBirthDate(cpr).value in ExceptionDates ==> r == Ok(Verdict(true, "in exception_date"))
    ensures GetBirthDate(cpr).Ok? && GetBirthDate(cpr).value !in ExceptionDates ==>
      (r.Ok? <==> Mod11Raw(cpr).Some?) && (r.Ok? ==> r.value == Verdict(Mod11Raw(cpr).value, "due to modulus11"))
    ensures r.Ok? && r.value.passed ==> GetBirthDate(cpr).Ok? && GetBirthDateAsWritten(cpr).Ok?
  {
    CutoffsAgree(cpr);
    match GetBirthDateAsWritten(cpr)
    case Err(_) => Ok(Verdict(false, "malformed birth_date"))
    case Ok(d) =>
      if d in ExceptionDates then Ok(Verdict(true, "in exception_date"))
      else
        match Mod11Raw(cpr)
        case None => Err(ValueError)
        case Some(b) => Ok(Verdict(b, "due to modulus11"))
  }

  // ---------------------------------------------------------------------
  // Form validation and the legal 7th digits
  // ---------------------------------------------------------------------

  /** `_form_validator`: "" exactly for ten digits with a readable birth
      date, otherwise the first failing check's message. It reads the date
      as written; the corrected cut-off accepts the same strings. */
  function FormValidator(cpr: string): (r: string)
    ensures r == "" <==> |cpr| == 10 && AllDigits(cpr) && GetBirthDateAsWritten(cpr).Ok?
    ensures r == "" <==> |cpr| == 10 && AllDigits(cpr) && GetBirthDate(cpr).Ok?
    ensures |cpr| < 10 ==> r == "CPR too short"
    ensures |cpr| > 10 ==> r == "CPR too long"
    ensures |cpr| == 10 && !AllDigits(cpr) ==> r == "CPR can only contain digits"
    ensures |cpr| == 10 && AllDigits(cpr) && GetBirthDateAsWritten(cpr).Err? ==> r == "Illegal date"
  {
    CutoffsAgree(cpr);
    if |cpr| < 10 then "CPR too short"
    else if |cpr| > 10 then "CPR too long"
    else if !AllDigits(cpr) then "CPR can only contain digits"
    else if GetBirthDateAsWritten(cpr).Err? then "Illegal date"
    else ""
  }

  /** `_legal_7s`. */
  function Legal7s(year: int): (ds: seq<int>)
    ensures forall i :: 0 <= i < |ds| ==> 0 <= ds[i] <= 9
  {
    if 1858 <= year <= 1899 then [5, 6, 7, 8]
    else if 1900 <= year <= 1936 then [0, 1, 2, 3]
    else if 1937 <= year <= 1999 then [0, 1, 2, 3, 4, 9]
    else if 2000 <= year <= 2036 then [4, 5, 6, 7, 8, 9]
    else if 2037 <= year <= 2057 then [5, 6, 7, 8]
    else []
  }

  /** The table of legal 7th digits is the CPR office's windows read the
      other way round: a digit is listed for a year exactly when the year
      is in the digit's window; nothing is listed outside 1858-2057. */
  lemma Legal7sAreWindows(year: int, digit: int)
    ensures digit in Legal7s(year) <==> 0 <= digit <= 9 && InWindow(digit, year)
    ensures Legal7s(year) == [] <==> year < 1858 || year > 2057
  {
  }

  /** Every CPR that passes the form validator has a 7th digit that is
      legal for the year it is read as. */
  lemma OwnDigitIsLegal(cpr: string)
    requires FormValidator(cpr) == ""
    ensures DigitValue(cpr[6]) in Legal7s(GetBirthDate(cpr).value.year)
  {
    ParsedCprRoundTrip(cpr);
    Legal7sAreWindows(GetBirthDate(cpr).value.year, DigitValue(cpr[6]));
  }

  /** The same for the program's own reading: a CPR that passes the form
      validator has a 7th digit legal for the year `get_birth_date` reads,
      except a 9 read as 2037, which is not. */
  lemma OwnDigitIsLegalAsWritten(cpr: string)
    requires FormValidator(cpr) == ""
    ensures !(cpr[6] == '9' && GetBirthDateAsWritten(cpr).value.year == 2037) ==>
      DigitValue(cpr[6]) in Legal7s(GetBirthDateAsWritten(cpr).value.year)
    ensures cpr[6] == '9' && GetBirthDateAsWritten(cpr).value.year == 2037 ==>
      DigitValue(cpr[6]) !in Legal7s(GetBirthDateAsWritten(cpr).value.year)
  {
    CutoffsAgree(cpr);
    OwnDigitIsLegal(cpr);
    Legal7sAreWindows(GetBirthDateAsWritten(cpr).value.year, DigitValue(cpr[6]));
  }
}
