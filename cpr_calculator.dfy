/** `CprProbabilityCalculator`: the enumeration of every legal CPR of a
    birth date (cached per date) and the probability ladder `cpr_check`
    reads off a CPR's position in that enumeration. "Today" is a parameter. */
module CprCalculator {
  import opened Wrappers
  import opened Cpr

  // ---------------------------------------------------------------------
  // The enumeration, as a specification
  // ---------------------------------------------------------------------

  /** Whether a candidate is kept: every candidate without the modulus-11
      check, only those passing the raw checksum with it. */
  predicate Keep(check: bool, cpr: string) {
    !check || Mod11Raw(cpr) == Some(true)
  }

  predicate Digits(ds: seq<int>) {
    forall i :: 0 <= i < |ds| ==> 0 <= ds[i] <= 9
  }

  /** The kept candidates with 7th digit `digit` and serials 0 .. n-1, in
      the order the inner loop appends them. */
  function SerialRun(d: Date, digit: int, n: nat, check: bool): seq<string>
    requires ValidDate(d) && 0 <= digit <= 9 && n <= 1000
  {
    if n == 0 then []
    else
      var c := CprOf(d, digit, n - 1);
      SerialRun(d, digit, n - 1, check) + (if Keep(check, c) then [c] else [])
  }

  /** The kept candidates for every digit of `ds`, digit by digit. */
  function Enumerate(d: Date, ds: seq<int>, check: bool): seq<string>
    requires ValidDate(d) && Digits(ds)
  {
    if ds == [] then []
    else Enumerate(d, ds[..|ds| - 1], check) + SerialRun(d, ds[|ds| - 1], 1000, check)
  }

  /** What `_calc_all_cprs` computes for a date it has not cached: a
      thousand serials per legal 7th digit, fewer with the check on.
      `EnumerationMembers` says which strings are listed. */
  function AllCprs(d: Date, check: bool): (r: seq<string>)
    requires ValidDate(d)
    ensures |r| <= 1000 * |Legal7s(d.year)|
    ensures !check ==> |r| == 1000 * |Legal7s(d.year)|
  {
    EnumerationLayout(d, Legal7s(d.year));
    EnumerationFiltered(d, Legal7s(d.year));
    PassingMod11Shrinks(Enumerate(d, Legal7s(d.year), false));
    Enumerate(d, Legal7s(d.year), check)
  }

  /** The candidates that pass the raw checksum, in their order. */
  function PassingMod11(s: seq<string>): seq<string> {
    if s == [] then []
    else PassingMod11(s[..|s| - 1]) + (if Mod11Raw(s[|s| - 1]) == Some(true) then [s[|s| - 1]] else [])
  }

  /** Filtering never lengthens a list. */
  lemma {:induction false} PassingMod11Shrinks(s: seq<string>)
    ensures |PassingMod11(s)| <= |s|
  {
    if s != [] {
      PassingMod11Shrinks(s[..|s| - 1]);
    }
  }

  lemma {:induction false} PassingMod11Append(a: seq<string>, b: seq<string>)
    ensures PassingMod11(a + b) == PassingMod11(a) + PassingMod11(b)
  {
    if b != [] {
      assert (a + b)[..|a + b| - 1] == a + b[..|b| - 1];
      PassingMod11Append(a, b[..|b| - 1]);
    } else {
      assert a + b == a;
    }
  }

  lemma {:induction false} SerialRunUnfiltered(d: Date, digit: int, n: nat)
    requires ValidDate(d) && 0 <= digit <= 9 && n <= 1000
    ensures |SerialRun(d, digit, n, false)| == n
    ensures forall i :: 0 <= i < n ==> SerialRun(d, digit, n, false)[i] == CprOf(d, digit, i)
  {
    if n > 0 {
      SerialRunUnfiltered(d, digit, n - 1);
    }
  }

  lemma {:induction false} SerialRunFiltered(d: Date, digit: int, n: nat)
    requires ValidDate(d) && 0 <= digit <= 9 && n <= 1000
    ensures SerialRun(d, digit, n, true) == PassingMod11(SerialRun(d, digit, n, false))
  {
    if n > 0 {
      SerialRunFiltered(d, digit, n - 1);
      var c := CprOf(d, digit, n - 1);
      var u := SerialRun(d, digit, n, false);
      assert u == SerialRun(d, digit, n - 1, false) + [c];
      assert u[..|u| - 1] == SerialRun(d, digit, n - 1, false);
    }
  }

  /** Without the modulus-11 check the enumeration lists, for each digit
      in turn, the serials 000 to 999: entry 1000·j + i is digit j's
      serial i, and there are exactly 1000 entries per digit. */
  lemma {:induction false} EnumerationLayout(d: Date, ds: seq<int>)
    requires ValidDate(d) && Digits(ds)
    ensures |Enumerate(d, ds, false)| == 1000 * |ds|
    ensures forall j, i :: 0 <= j < |ds| && 0 <= i < 1000 ==>
      Enumerate(d, ds, false)[1000 * j + i] == CprOf(d, ds[j], i)
  {
    if ds != [] {
      var init := ds[..|ds| - 1];
      EnumerationLayout(d, init);
      SerialRunUnfiltered(d, ds[|ds| - 1], 1000);
      var e := Enumerate(d, ds, false);
      forall j, i | 0 <= j < |ds| && 0 <= i < 1000
        ensures e[1000 * j + i] == CprOf(d, ds[j], i)
      {
        if j < |ds| - 1 {
          assert ds[j] == init[j];
        } else {
          assert e[1000 * j + i] == SerialRun(d, ds[|ds| - 1], 1000, false)[i];
        }
      }
    }
  }

  /** With the check on, the enumeration is the unchecked one with the
      failing candidates struck out, order kept. */
  lemma {:induction false} EnumerationFiltered(d: Date, ds: seq<int>)
    requires ValidDate(d) && Digits(ds)
    ensures Enumerate(d, ds, true) == PassingMod11(Enumerate(d, ds, false))
  {
    if ds != [] {
      EnumerationFiltered(d, ds[..|ds| - 1]);
      SerialRunFiltered(d, ds[|ds| - 1], 1000);
      PassingMod11Append(Enumerate(d, ds[..|ds| - 1], false), SerialRun(d, ds[|ds| - 1], 1000, false));
    }
  }

  /** Every entry is the CPR of the date with a digit of `ds` and a serial
      below 1000, kept by the check; conversely every such kept CPR is listed. */
  lemma {:induction false} EnumerationMembers(d: Date, ds: seq<int>, check: bool, s: string)
    requires ValidDate(d) && Digits(ds)
    ensures s in Enumerate(d, ds, check) <==>
      Keep(check, s) && exists j, i :: 0 <= j < |ds| && 0 <= i < 1000 && s == CprOf(d, ds[j], i)
  {
    if ds != [] {
      var init := ds[..|ds| - 1];
      var last := ds[|ds| - 1];
      EnumerationMembers(d, init, check, s);
      SerialRunMembers(d, last, 1000, check, s);
      if Keep(check, s) && exists j, i :: 0 <= j < |ds| && 0 <= i < 1000 && s == CprOf(d, ds[j], i) {
        var j, i :| 0 <= j < |ds| && 0 <= i < 1000 && s == CprOf(d, ds[j], i);
        if j < |ds| - 1 {
          assert init[j] == ds[j];
        }
      }
      if s in Enumerate(d, init, check) {
        var j, i :| 0 <= j < |init| && 0 <= i < 1000 && s == CprOf(d, init[j], i);
        assert ds[j] == init[j];
      }
    }
  }

  lemma {:induction false} SerialRunMembers(d: Date, digit: int, n: nat, check: bool, s: string)
    requires ValidDate(d) && 0 <= digit <= 9 && n <= 1000
    ensures s in SerialRun(d, digit, n, check) <==>
      Keep(check, s) && exists i :: 0 <= i < n && s == CprOf(d, digit, i)
  {
    if n > 0 {
      SerialRunMembers(d, digit, n - 1, check, s);
      var c := CprOf(d, digit, n - 1);
      assert SerialRun(d, digit, n, check) == SerialRun(d, digit, n - 1, check) + (if Keep(check, c) then [c] else []);
      if exists i :: 0 <= i < n && s == CprOf(d, digit, i) {
        var i :| 0 <= i < n && s == CprOf(d, digit, i);
        if i < n - 1 {
          assert exists i' :: 0 <= i' < n - 1 && s == CprOf(d, digit, i');
        }
      }
    }
  }

  /** With the check on, every entry passes the raw modulus-11 checksum. */
  lemma AllEntriesPassMod11(d: Date, ds: seq<int>, s: string)
    requires ValidDate(d) && Digits(ds) && s in Enumerate(d, ds, true)
    ensures Mod11Raw(s) == Some(true)
  {
    EnumerationMembers(d, ds, true, s);
  }

  // ---------------------------------------------------------------------
  // The probability ladder
  // ---------------------------------------------------------------------

  datatype CheckResult = Rejected(reason: string) | Probability(p: real)

  /** The probability of the CPR at position `index` of its date's list. */
  function Ladder(index: nat): (p: real)
    ensures 0.1 <= p <= 1.0
    ensures index <= 100 <==> p == 1.0
    ensures index > 350 <==> p == 0.1
  {
    if index <= 100 then 1.0
    else if index <= 200 then 0.8
    else if index <= 250 then 0.6
    else if index <= 350 then 0.25
    else 0.1
  }

  /** A later position never gets a higher probability, and every value is
      one of the five rungs, between 0.1 and 1. */
  lemma LadderDescends(i: nat, j: nat)
    requires i <= j
    ensures Ladder(j) <= Ladder(i)
    ensures 0.1 <= Ladder(i) <= 1.0
    ensures Ladder(i) in {1.0, 0.8, 0.6, 0.25, 0.1}
  {
  }

  /** `list.index`: the first position of `x`, None where it raises ValueError. */
  function IndexOf(s: seq<string>, x: string): (r: Option<nat>)
    ensures r.None? <==> x !in s
    ensures r.Some? ==> r.value < |s| && s[r.value] == x && forall j :: 0 <= j < r.value ==> s[j] != x
  {
    if s == [] then None
    else if s[0] == x then Some(0)
    else
      match IndexOf(s[1..], x)
      case None => None
      case Some(i) => Some(i + 1)
  }

  /** The verdicts `cpr_check` reaches before it needs the enumeration:
      form errors, a date after today, an exception date (0.5), and a
      failing checksum. None means the enumeration decides. `asWritten`
      picks the date `get_birth_date` reads as the source has it, or with
      the corrected digit-9 cut-off. */
  function Precheck(cpr: string, doMod11: bool, today: Date, asWritten: bool): (r: Option<CheckResult>)
    ensures FormValidator(cpr) != "" ==> r == Some(Rejected(FormValidator(cpr)))
    ensures FormValidator(cpr) == "" && After(CheckedBirthDate(cpr, asWritten).value, today) ==>
      r == Some(Rejected("CPR newer than today"))
    ensures (FormValidator(cpr) == "" && !After(CheckedBirthDate(cpr, asWritten).value, today) &&
             CheckedBirthDate(cpr, asWritten).value in ExceptionDates) ==> r == Some(Probability(0.5))
    ensures (FormValidator(cpr) == "" && !After(CheckedBirthDate(cpr, asWritten).value, today) &&
             CheckedBirthDate(cpr, asWritten).value !in ExceptionDates && !Keep(doMod11, cpr)) ==>
      r == Some(Rejected("Modulus 11 does not match"))
    ensures r.None? ==>
      FormValidator(cpr) == "" && !After(CheckedBirthDate(cpr, asWritten).value, today) &&
      CheckedBirthDate(cpr, asWritten).value !in ExceptionDates && Keep(doMod11, cpr)
  {
    var error := FormValidator(cpr);
    if error != "" then Some(Rejected(error))
    else
      var d := CheckedBirthDate(cpr, asWritten).value;
      if After(d, today) then Some(Rejected("CPR newer than today"))
      else if d in ExceptionDates then Some(Probability(0.5))
      else if doMod11 && Mod11Raw(cpr) != Some(true) then Some(Rejected("Modulus 11 does not match"))
      else None
  }

  /** `cpr_check` when `legal` is the list `_calc_all_cprs` hands back. */
  function CheckAgainst(cpr: string, doMod11: bool, today: Date, legal: seq<string>, asWritten: bool): (r: CheckResult)
    ensures Precheck(cpr, doMod11, today, asWritten).Some? ==> r == Precheck(cpr, doMod11, today, asWritten).value
    ensures Precheck(cpr, doMod11, today, asWritten).None? ==>
      (r == Rejected("CPR is not a legal value") <==> cpr !in legal) && (r.Probability? <==> cpr in legal)
    ensures Precheck(cpr, doMod11, today, asWritten).None? && cpr in legal ==>
      exists i :: 0 <= i < |legal| && legal[i] == cpr && cpr !in legal[..i] && r == Probability(Ladder(i))
  {
    match Precheck(cpr, doMod11, today, asWritten)
    case Some(r) => r
    case None =>
      match IndexOf(legal, cpr)
      case None => Rejected("CPR is not a legal value")
      case Some(i) => Probability(Ladder(i))
  }

  /** With the corrected cut-off, a CPR that passes every precheck is found
      in its date's enumeration (when that list was made with the same
      check flag), so it gets a probability from the ladder and never
      "CPR is not a legal value". */
  lemma {:induction false} PlausibleCprIsListed(cpr: string, doMod11: bool, today: Date)
    requires Precheck(cpr, doMod11, today, false).None?
    ensures var d := GetBirthDate(cpr).value;
      IndexOf(AllCprs(d, doMod11), cpr).Some? &&
      CheckAgainst(cpr, doMod11, today, AllCprs(d, doMod11), false)
        == Probability(Ladder(IndexOf(AllCprs(d, doMod11), cpr).value))
  {
    var d := GetBirthDate(cpr).value;
    var digit := DigitValue(cpr[6]);
    ParsedCprRoundTrip(cpr);
    OwnDigitIsLegal(cpr);
    var ds := Legal7s(d.year);
    var j :| 0 <= j < |ds| && ds[j] == digit;
    var serial := ParseDecimal(cpr[7..]).value;
    EnumerationMembers(d, ds, doMod11, cpr);
  }

  /** The code as written and the corrected cut-off give the same verdict
      on every CPR whose date they read alike, which is every CPR but
      those with 7th digit 9 and year 37. */
  lemma AsWrittenAgreesElsewhere(cpr: string, doMod11: bool, today: Date, legal: seq<string>)
    requires GetBirthDate(cpr) == GetBirthDateAsWritten(cpr)
    ensures Precheck(cpr, doMod11, today, true) == Precheck(cpr, doMod11, today, false)
    ensures CheckAgainst(cpr, doMod11, today, legal, true) == CheckAgainst(cpr, doMod11, today, legal, false)
  {
    assert CheckedBirthDate(cpr, true) == CheckedBirthDate(cpr, false);
  }

  /** A CPR whose 7th digit is not legal for the date is never listed. */
  lemma UnlistedDigit(d: Date, cpr: string, check: bool)
    requires ValidDate(d) && |cpr| >= 7 && IsDigit(cpr[6]) && DigitValue(cpr[6]) !in Legal7s(d.year)
    ensures cpr !in AllCprs(d, check)
  {
    var ds := Legal7s(d.year);
    EnumerationMembers(d, ds, check, cpr);
    forall j, i | 0 <= j < |ds| && 0 <= i < 1000
      ensures cpr != CprOf(d, ds[j], i)
    {
      assert CprOf(d, ds[j], i)[6] == DigitChar(ds[j]);
    }
  }

  /** As written, a CPR with 7th digit 9 that is read as a 2037 date and
      passes every precheck is "CPR is not a legal value", because the
      digits listed for 2037 are 5 to 8; with the corrected cut-off the
      same CPR is dated 1937 and gets a ladder probability. */
  lemma AsWrittenRejectsNine37(cpr: string, doMod11: bool, today: Date)
    requires Precheck(cpr, doMod11, today, true).None?
    requires cpr[6] == '9' && GetBirthDateAsWritten(cpr).value.year == 2037
    ensures CheckAgainst(cpr, doMod11, today, AllCprs(GetBirthDateAsWritten(cpr).value, doMod11), true)
         == Rejected("CPR is not a legal value")
    ensures GetBirthDate(cpr).value.year == 1937
    ensures CheckAgainst(cpr, doMod11, today, AllCprs(GetBirthDate(cpr).value, doMod11), false).Probability?
  {
    var d := GetBirthDateAsWritten(cpr).value;
    assert Legal7s(d.year) == [5, 6, 7, 8];
    UnlistedDigit(d, cpr, doMod11);
    CutoffsAgree(cpr);
    PlausibleCprIsListed(cpr, doMod11, today);
  }

  /** Five steps of the weighted sum, written out term by term. */
  lemma WeightedSumOfFive(s: string, w: seq<int>)
    requires |s| >= 5 && |w| >= 5 && forall i :: 0 <= i < 5 ==> IsDigit(s[i])
    requires WeightedSum(s[5..], w[5..]).Some?
    ensures WeightedSum(s, w) == Some(
      DigitValue(s[0]) * w[0] + DigitValue(s[1]) * w[1] + DigitValue(s[2]) * w[2] +
      DigitValue(s[3]) * w[3] + DigitValue(s[4]) * w[4] + WeightedSum(s[5..], w[5..]).value)
  {
    WeightedSumCons(s, w, 4);
    WeightedSumCons(s, w, 3);
    WeightedSumCons(s, w, 2);
    WeightedSumCons(s, w, 1);
    WeightedSumCons(s, w, 0);
    assert s[0..] == s && w[0..] == w;
  }

  /** One step of the weighted sum from position `k`. */
  lemma WeightedSumCons(s: string, w: seq<int>, k: nat)
    requires k < |s| && k < |w| && IsDigit(s[k]) && WeightedSum(s[k + 1..], w[k + 1..]).Some?
    ensures WeightedSum(s[k..], w[k..]) ==
      Some(DigitValue(s[k]) * w[k] + WeightedSum(s[k + 1..], w[k + 1..]).value)
  {
    assert s[k..][1..] == s[k + 1..] && w[k..][1..] == w[k + 1..];
  }

  /** The weighted sum of ten digits, written out term by term. */
  lemma WeightedSumOfTen(s: string, w: seq<int>)
    requires |s| == 10 && |w| == 10 && forall i :: 0 <= i < 10 ==> IsDigit(s[i])
    ensures WeightedSum(s, w) == Some(
      DigitValue(s[0]) * w[0] + DigitValue(s[1]) * w[1] + DigitValue(s[2]) * w[2] +
      DigitValue(s[3]) * w[3] + DigitValue(s[4]) * w[4] + DigitValue(s[5]) * w[5] +
      DigitValue(s[6]) * w[6] + DigitValue(s[7]) * w[7] + DigitValue(s[8]) * w[8] +
      DigitValue(s[9]) * w[9])
  {
    var s', w' := s[5..], w[5..];
    assert s'[5..] == [] && w'[5..] == [];
    WeightedSumOfFive(s', w');
    WeightedSumOfFive(s, w);
  }

  /** The CPRs `010137 9 000`, however the string is built. */
  predicate NineThirtySevenShape(cpr: string) {
    |cpr| == 10 && cpr[..6] == "010137" && cpr[6] == '9' && cpr[7..] == "000"
  }

  /** Its check digit passes: 3 + 7 + 18 + 35 + 36 = 99. */
  lemma NineThirtySevenChecksum(cpr: string)
    requires NineThirtySevenShape(cpr)
    ensures Mod11Raw(cpr) == Some(true)
  {
    assert cpr[0] == '0' && cpr[1] == '1' && cpr[2] == '0' && cpr[3] == '1' && cpr[4] == '3' && cpr[5] == '7';
    assert cpr[7] == '0' && cpr[8] == '0' && cpr[9] == '0';
    WeightedSumOfTen(cpr, Mod11Weights);
  }

  /** It is well formed, dated 2037-01-01 as written and 1937-01-01 with
      the corrected cut-off. */
  lemma NineThirtySevenDates(cpr: string)
    requires NineThirtySevenShape(cpr)
    ensures FormValidator(cpr) == ""
    ensures GetBirthDateAsWritten(cpr) == Ok(Date(2037, 1, 1))
    ensures GetBirthDate(cpr) == Ok(Date(1937, 1, 1))
  {
    NineThirtySevenRead(cpr, 36);
    NineThirtySevenRead(cpr, 37);
    assert AllDigits(cpr) by {
      assert cpr == cpr[..6] + [cpr[6]] + cpr[7..];
    }
  }

  lemma NineThirtySevenRead(cpr: string, nineCutoff: int)
    requires NineThirtySevenShape(cpr) && (nineCutoff == 36 || nineCutoff == 37)
    ensures BirthDate(cpr, nineCutoff) == Ok(Date(if nineCutoff == 36 then 1937 else 2037, 1, 1))
  {
    var head := cpr[..6];
    assert Slice(cpr, 0, 2) == head[0..2] == "01";
    assert Slice(cpr, 2, 4) == head[2..4] == "01";
    assert Slice(cpr, 4, 6) == head[4..6] == "37";
    assert "01"[..1] == "0" && "37"[..1] == "3";
  }

  /** Such a CPR meets the lemma above from 2037-01-01 on, and before that
      date the code as written answers "CPR newer than today". */
  lemma NineThirtySevenWitness(cpr: string, today: Date)
    requires NineThirtySevenShape(cpr)
    ensures After(Date(2037, 1, 1), today) ==>
      Precheck(cpr, true, today, true) == Some(Rejected("CPR newer than today"))
    ensures !After(Date(2037, 1, 1), today) ==>
      Precheck(cpr, true, today, true).None? && GetBirthDateAsWritten(cpr).value.year == 2037
  {
    NineThirtySevenDates(cpr);
    NineThirtySevenChecksum(cpr);
  }

  /** `"0101379000"` has that shape. */
  lemma NineThirtySevenIsOne()
    ensures NineThirtySevenShape("0101379000")
  {
  }

  /** The cache is keyed by date alone: once a date's list was made with
      the check on, a CPR of that date failing the checksum is "not a
      legal value" even when the caller switched the check off. */
  lemma StaleCacheRejects(cpr: string, today: Date, asWritten: bool)
    requires Precheck(cpr, false, today, asWritten).None? && Mod11Raw(cpr) != Some(true)
    ensures CheckAgainst(cpr, false, today, AllCprs(CheckedBirthDate(cpr, asWritten).value, true), asWritten)
         == Rejected("CPR is not a legal value")
  {
    var d := CheckedBirthDate(cpr, asWritten).value;
    if cpr in AllCprs(d, true) {
      AllEntriesPassMod11(d, Legal7s(d.year), cpr);
    }
  }

  /** One turn of the inner loop: appending the kept candidate extends the run. */
  lemma SerialRunStep(d: Date, digit: int, i: nat, check: bool, done: seq<string>, legal: seq<string>)
    requires ValidDate(d) && 0 <= digit <= 9 && i < 1000
    requires legal == done + SerialRun(d, digit, i, check)
    ensures Keep(check, CprOf(d, digit, i)) ==> legal + [CprOf(d, digit, i)] == done + SerialRun(d, digit, i + 1, check)
    ensures !Keep(check, CprOf(d, digit, i)) ==> legal == done + SerialRun(d, digit, i + 1, check)
  {
    var c := CprOf(d, digit, i);
    assert SerialRun(d, digit, i + 1, check) == SerialRun(d, digit, i, check) + (if Keep(check, c) then [c] else []);
  }

  /** The nested loops of `_calc_all_cprs`: for each legal 7th digit in
      turn, the serials 000 to 999, each candidate kept when the check is
      off or it passes the raw checksum. */
  method EnumerateLegalCprs(birthDate: Date, mod11Check: bool) returns (legal: seq<string>)
    requires ValidDate(birthDate)
    ensures legal == AllCprs(birthDate, mod11Check)
  {
    var legal7 := Legal7s(birthDate.year);
    legal := [];
    var k := 0;
    while k < |legal7|
      invariant 0 <= k <= |legal7|
      invariant legal == Enumerate(birthDate, legal7[..k], mod11Check)
    {
      legal := AppendSerials(birthDate, legal7[k], mod11Check, legal);
      assert legal7[..k + 1][..k] == legal7[..k];
      k := k + 1;
    }
    assert legal7[..k] == legal7;
  }

  /** The inner loop of `_calc_all_cprs`: the serials 000 to 999 of one
      7th digit, each candidate appended when the check is off or it passes
      the raw checksum. */
  method AppendSerials(birthDate: Date, digit: int, mod11Check: bool, done: seq<string>) returns (legal: seq<string>)
    requires ValidDate(birthDate) && 0 <= digit <= 9
    ensures legal == done + SerialRun(birthDate, digit, 1000, mod11Check)
  {
    legal := done;
    var i := 0;
    while i < 1000
      invariant 0 <= i <= 1000
      invariant legal == done + SerialRun(birthDate, digit, i, mod11Check)
    {
      var candidate := Ddmmyy(birthDate) + [DigitChar(digit)] + Pad3(i);
      assert candidate == CprOf(birthDate, digit, i);
      SerialRunStep(birthDate, digit, i, mod11Check, done, legal);
      if mod11Check {
        var valid := Mod11Raw(candidate) == Some(true);
        if valid {
          legal := legal + [candidate];
        }
      } else {
        legal := legal + [candidate];
      }
      i := i + 1;
    }
  }

  // ---------------------------------------------------------------------
  // The calculator object and its cache
  // ---------------------------------------------------------------------

  /** The list held for `d`: the cached one, or a fresh enumeration. */
  function CachedOr(cache: map<Date, seq<string>>, d: Date, check: bool): seq<string>
    requires ValidDate(d)
  {
    if d in cache then cache[d] else AllCprs(d, check)
  }

  class ProbabilityCalculator {
    /** `cached_cprs`, keyed by the date whose `str` the source uses as key. */
    var cachedCprs: map<Date, seq<string>>

    /** Every cached list is the enumeration of its date, made with one of
        the two check flags. */
    ghost predicate Valid()
      reads this
    {
      forall d :: d in cachedCprs ==>
        ValidDate(d) && (cachedCprs[d] == AllCprs(d, true) || cachedCprs[d] == AllCprs(d, false))
    }

    constructor ()
      ensures Valid() && cachedCprs == map[]
    {
      cachedCprs := map[];
    }

    /** `_calc_all_cprs`: the cached list if the date has one (whatever flag
        made it), otherwise the enumeration, which is then cached. */
    method CalcAllCprs(birthDate: Date, mod11Check: bool := true) returns (legal: seq<string>)
      requires Valid() && ValidDate(birthDate)
      modifies this
      ensures Valid()
      ensures legal == CachedOr(old(cachedCprs), birthDate, mod11Check)
      ensures cachedCprs == old(cachedCprs)[birthDate := legal]
    {
      if birthDate in cachedCprs {
        legal := cachedCprs[birthDate];
        return;
      }
      legal := EnumerateLegalCprs(birthDate, mod11Check);
      cachedCprs := cachedCprs[birthDate := legal];
    }

    /** `cpr_check`, as written: the prechecks, then the position of the
        CPR in the list `_calc_all_cprs` gives for its birth date. */
    method CprCheck(cpr: string, today: Date, doMod11: bool := true) returns (r: CheckResult)
      requires Valid()
      modifies this
      ensures Valid()
      ensures Precheck(cpr, doMod11, today, true).Some? ==>
        r == Precheck(cpr, doMod11, today, true).value && cachedCprs == old(cachedCprs)
      ensures Precheck(cpr, doMod11, today, true).None? ==>
        var d := GetBirthDateAsWritten(cpr).value;
        r == CheckAgainst(cpr, doMod11, today, CachedOr(old(cachedCprs), d, doMod11), true) &&
        cachedCprs == old(cachedCprs)[d := CachedOr(old(cachedCprs), d, doMod11)]
    {
      var error := FormValidator(cpr);
      if error != "" {
        return Rejected(error);
      }
      var birthDate := GetBirthDateAsWritten(cpr).value;
      if After(birthDate, today) {
        return Rejected("CPR newer than today");
      }
      if birthDate in ExceptionDates {
        return Probability(0.5);
      }
      if doMod11 && Mod11Raw(cpr) != Some(true) && birthDate !in ExceptionDates {
        return Rejected("Modulus 11 does not match");
      }
      var legalCprs := CalcAllCprs(birthDate, doMod11);
      var index := IndexOf(legalCprs, cpr);
      if index.None? {
        return Rejected("CPR is not a legal value");
      }
      var i := index.value;
      if i <= 100 {
        r := Probability(1.0);
      } else if 100 < i <= 200 {
        r := Probability(0.8);
      } else if 200 < i <= 250 {
        r := Probability(0.6);
      } else if 250 < i <= 350 {
        r := Probability(0.25);
      } else {
        r := Probability(0.1);
      }
    }
  }
}
