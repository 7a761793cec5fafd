/** Patient helpers: the codice fiscale layout check and normalisation, sex
    and birth date read from the code, age in completed years, and the days
    since the last visit. "Today" and "now" are parameters. */
module PatientUtils {
  import opened Wrappers
  import opened Strings
  import opened Records

  // ------------------------------------------------------- codice fiscale

  /** The layout of a codice fiscale has an upper-case letter at positions
      0 to 5, 8, 11 and 15 of its 16, and a digit everywhere else. */
  predicate LetterSlot(i: int) {
    i < 6 || i == 8 || i == 11 || i == 15
  }

  predicate FitsSlot(c: char, i: int) {
    if LetterSlot(i) then IsUpperAscii(c) else IsDigit(c)
  }

  /** `/^[A-Z]{6}[0-9]{2}[A-Z][0-9]{2}[A-Z][0-9]{3}[A-Z]$/.test(s)`. */
  predicate MatchesLayout(s: string) {
    |s| == 16 && forall i :: 0 <= i < |s| ==> FitsSlot(s[i], i)
  }

  /** `validateCodiceFiscale(cf)`: the layout test on the upper-cased code. */
  predicate ValidateCodiceFiscale(cf: string) {
    MatchesLayout(ToUpper(cf))
  }

  /** The layout written out group by group: 6 letters, 2 digits, a letter,
      2 digits, a letter, 3 digits, a letter. */
  lemma LayoutGroups(s: string)
    ensures MatchesLayout(s) <==>
      |s| == 16
      && (forall i :: 0 <= i < 6 ==> IsUpperAscii(s[i]))
      && IsDigit(s[6]) && IsDigit(s[7]) && IsUpperAscii(s[8])
      && IsDigit(s[9]) && IsDigit(s[10]) && IsUpperAscii(s[11])
      && IsDigit(s[12]) && IsDigit(s[13]) && IsDigit(s[14]) && IsUpperAscii(s[15])
  {
    if |s| == 16
      && (forall i :: 0 <= i < 6 ==> IsUpperAscii(s[i]))
      && IsDigit(s[6]) && IsDigit(s[7]) && IsUpperAscii(s[8])
      && IsDigit(s[9]) && IsDigit(s[10]) && IsUpperAscii(s[11])
      && IsDigit(s[12]) && IsDigit(s[13]) && IsDigit(s[14]) && IsUpperAscii(s[15])
    {
      forall i | 0 <= i < 16 ensures FitsSlot(s[i], i) {
      }
    }
  }

  lemma UpperOfLower(c: char)
    ensures UpperChar(LowerChar(c)) == UpperChar(c)
  {
  }

  lemma {:induction false} ToUpperOfLower(s: string)
    ensures ToUpper(ToLower(s)) == ToUpper(s)
  {
    if s != [] {
      ToUpperOfLower(s[1..]);
      UpperOfLower(s[0]);
      assert ToLower(s)[0] == LowerChar(s[0]) && ToLower(s)[1..] == ToLower(s[1..]);
    }
  }

  /** Validation ignores letter case. */
  lemma ValidationIgnoresCase(cf: string)
    ensures ValidateCodiceFiscale(ToUpper(cf)) == ValidateCodiceFiscale(cf)
    ensures ValidateCodiceFiscale(ToLower(cf)) == ValidateCodiceFiscale(cf)
  {
    ToUpperIdempotent(cf);
    ToUpperOfLower(cf);
  }

  /** A valid code is made of ASCII letters, in either case, where the layout
      has letters and of digits where it has digits. */
  lemma ValidCharacters(cf: string)
    requires ValidateCodiceFiscale(cf)
    ensures |cf| == 16
    ensures forall i :: 0 <= i < 16 ==>
      if LetterSlot(i) then IsUpperAscii(cf[i]) || IsLowerAscii(cf[i]) else IsDigit(cf[i])
  {
    forall i | 0 <= i < 16
      ensures if LetterSlot(i) then IsUpperAscii(cf[i]) || IsLowerAscii(cf[i]) else IsDigit(cf[i])
    {
      ToUpperAt(cf, i);
    }
  }

  /** `formatCodiceFiscale(cf)`: upper-cased, white space removed. */
  function FormatCodiceFiscale(cf: string): string {
    RemoveWhitespace(ToUpper(cf))
  }

  /** The formatted code has no white space, is already upper case, and
      formatting it again changes nothing. */
  lemma FormatIsNormal(cf: string)
    ensures NoWhitespace(FormatCodiceFiscale(cf))
    ensures ToUpper(FormatCodiceFiscale(cf)) == FormatCodiceFiscale(cf)
    ensures FormatCodiceFiscale(FormatCodiceFiscale(cf)) == FormatCodiceFiscale(cf)
  {
    var f := FormatCodiceFiscale(cf);
    RemoveWhitespaceClean(ToUpper(cf));
    ToUpperRemoveWhitespace(ToUpper(cf));
    ToUpperIdempotent(cf);
    RemoveWhitespaceKeeps(f);
  }

  /** A formatted code is valid iff it matches the layout as it stands, and
      formatting a valid code gives its upper-case form, which is valid. */
  lemma FormatAndValidate(cf: string)
    ensures ValidateCodiceFiscale(FormatCodiceFiscale(cf)) <==> MatchesLayout(FormatCodiceFiscale(cf))
    ensures ValidateCodiceFiscale(cf) ==>
      FormatCodiceFiscale(cf) == ToUpper(cf) && ValidateCodiceFiscale(FormatCodiceFiscale(cf))
  {
    FormatIsNormal(cf);
    if ValidateCodiceFiscale(cf) {
      var u := ToUpper(cf);
      assert NoWhitespace(u) by {
        forall i | 0 <= i < |u| ensures !IsJsWhitespace(u[i]) {
          assert FitsSlot(u[i], i);
        }
      }
      RemoveWhitespaceKeeps(u);
      ToUpperIdempotent(cf);
    }
  }

  // ----------------------------------------------------- sex, birth date

  /** The number printed as JavaScript prints it; None stands for NaN. */
  function NumberText(n: Option<int>): string {
    match n
    case None => "NaN"
    case Some(v) => IntToString(v)
  }

  /** `extractSexFromCF(cf)`: absent for a code shorter than 11 characters,
      else 'F' when characters 9 and 10 parse to more than 40, and 'M'
      otherwise, NaN included. */
  function ExtractSexFromCF(cf: string): (sex: Option<string>)
    ensures sex.None? <==> |cf| < 11
    ensures sex == Some("F") <==> 11 <= |cf| && ParseInt(cf[9..11]).Some? && ParseInt(cf[9..11]).value > 40
    ensures 11 <= |cf| && ParseInt(cf[9..11]).None? ==> sex == Some("M")
  {
    if |cf| < 11 then None
    else
      match ParseInt(cf[9..11])
      case Some(d) => if d > 40 then Some("F") else Some("M")
      case None => Some("M")
  }

  /** The month letters of the codice fiscale, January to December. */
  const MonthLetters: string := "ABCDEHLMPRST"

  /** `monthMap[monthCode]`. */
  function MonthCode(c: char): Option<string> {
    if c == 'A' then Some("01") else if c == 'B' then Some("02")
    else if c == 'C' then Some("03") else if c == 'D' then Some("04")
    else if c == 'E' then Some("05") else if c == 'H' then Some("06")
    else if c == 'L' then Some("07") else if c == 'M' then Some("08")
    else if c == 'P' then Some("09") else if c == 'R' then Some("10")
    else if c == 'S' then Some("11") else if c == 'T' then Some("12")
    else None
  }

  lemma PadOneDigit(s: string)
    ensures |s| == 1 ==> PadStart2(s) == ['0', s[0]]
  {
    if |s| == 1 { assert seq(1, _ => '0') == ['0']; }
  }

  /** `monthMap[monthCode]` as it lands in the date: "undefined" for a
      letter that is not a month. */
  function MonthPart(c: char): string {
    match MonthCode(c) case Some(m) => m case None => "undefined"
  }

  /** Exactly the month letters map to a month, and every month is two
      characters. */
  lemma MonthCodeLetters(c: char)
    ensures MonthCode(c).Some? <==> c in MonthLetters
    ensures MonthCode(c).Some? ==> |MonthCode(c).value| == 2 && MonthPart(c) == MonthCode(c).value
  {
    assert MonthLetters == ['A', 'B', 'C', 'D', 'E', 'H', 'L', 'M', 'P', 'R', 'S', 'T'];
  }

  /** The i-th month letter maps to month i + 1, two digits. */
  lemma MonthCodeIsPosition()
    ensures forall i :: 0 <= i < 12 ==> MonthCode(MonthLetters[i]) == Some(PadStart2(NatToString(i + 1)))
  {
    forall i | 0 <= i < 12
      ensures MonthCode(MonthLetters[i]) == Some(PadStart2(NatToString(i + 1)))
    {
      PadOneDigit(NatToString(i + 1));
      if i == 0 {
        assert MonthLetters[0] == 'A' && NatToString(1) == "1";
      } else if i == 1 {
        assert MonthLetters[1] == 'B' && NatToString(2) == "2";
      } else if i == 2 {
        assert MonthLetters[2] == 'C' && NatToString(3) == "3";
      } else if i == 3 {
        assert MonthLetters[3] == 'D' && NatToString(4) == "4";
      } else if i == 4 {
        assert MonthLetters[4] == 'E' && NatToString(5) == "5";
      } else if i == 5 {
        assert MonthLetters[5] == 'H' && NatToString(6) == "6";
      } else if i == 6 {
        assert MonthLetters[6] == 'L' && NatToString(7) == "7";
      } else if i == 7 {
        assert MonthLetters[7] == 'M' && NatToString(8) == "8";
      } else if i == 8 {
        assert MonthLetters[8] == 'P' && NatToString(9) == "9";
      } else if i == 9 {
        assert MonthLetters[9] == 'R' && NatToString(10) == NatToString(1) + ['0'] == "10";
      } else if i == 10 {
        assert MonthLetters[10] == 'S' && NatToString(11) == NatToString(1) + ['1'] == "11";
      } else if i == 11 {
        assert MonthLetters[11] == 'T' && NatToString(12) == NatToString(1) + ['2'] == "12";
      }
    }
  }

  /** The day of the birth date: the number at characters 9 and 10, with 40
      taken off a number above 40; None stands for NaN. */
  function DayNumber(cf: string): Option<int>
    requires |cf| >= 11
  {
    match ParseInt(cf[9..11])
    case Some(d) => Some(if d > 40 then d - 40 else d)
    case None => None
  }

  /** '19' when the two-digit year is past this year's last two digits, else
      (NaN included) '20'. */
  function Century(year: string, currentYear: nat): (c: string)
    ensures |c| == 2
  {
    match ParseInt(year)
    case Some(y) => if y > currentYear % 100 then "19" else "20"
    case None => "20"
  }

  /** `extractBirthDateFromCF(cf)` with the current year passed in: absent
      for a code shorter than 11 characters, else the century, the two-digit
      year, the month from the month letter (`undefined` for another letter)
      and the day padded to two characters. */
  function ExtractBirthDateFromCF(cf: string, currentYear: nat): Option<string> {
    if |cf| < 11 then None
    else
      var year := cf[6..8];
      Some(Century(year, currentYear) + year + "-" + MonthPart(cf[8]) + "-" + PadStart2(NumberText(DayNumber(cf))))
  }

  /** The two-digit number at positions i and i + 1. */
  function TwoDigits(s: string, i: nat): nat
    requires i + 1 < |s| && IsDigit(s[i]) && IsDigit(s[i + 1])
  {
    (s[i] as int - '0' as int) * 10 + (s[i + 1] as int - '0' as int)
  }

  lemma SmallNatText(n: nat)
    requires n < 100
    ensures 1 <= |NatToString(n)| <= 2
  {
  }

  /** A code of the valid layout has digits for the year and the day. */
  lemma LayoutDigits(cf: string)
    requires MatchesLayout(cf)
    ensures |cf| == 16 && IsDigit(cf[6]) && IsDigit(cf[7]) && IsDigit(cf[9]) && IsDigit(cf[10])
  {
    assert FitsSlot(cf[6], 6) && FitsSlot(cf[7], 7);
    assert FitsSlot(cf[9], 9) && FitsSlot(cf[10], 10);
  }

  /** Two digits at positions i and i + 1 parse to their two-digit value. */
  lemma ParseDigitsAt(cf: string, i: nat)
    requires i + 1 < |cf| && IsDigit(cf[i]) && IsDigit(cf[i + 1])
    ensures ParseInt(cf[i..i + 2]) == Some(TwoDigits(cf, i))
  {
    ParseTwoDigits(cf[i..i + 2]);
  }

  /** The digits of a code of the valid layout parse to their two-digit values. */
  lemma ValidCodeNumbers(cf: string)
    requires MatchesLayout(cf)
    ensures ParseInt(cf[6..8]) == Some(TwoDigits(cf, 6))
    ensures ParseInt(cf[9..11]) == Some(TwoDigits(cf, 9))
  {
    LayoutDigits(cf);
    ParseDigitsAt(cf, 6);
    ParseDigitsAt(cf, 9);
  }

  /** On a code of the valid layout the sex is 'F' exactly when the day
      number is above 40. */
  lemma ValidCodeSex(cf: string)
    requires MatchesLayout(cf)
    ensures ExtractSexFromCF(cf) == (if TwoDigits(cf, 9) > 40 then Some("F") else Some("M"))
  {
    ValidCodeNumbers(cf);
  }

  /** On a code of the valid layout the birth date reads `CCYY-MM-DD`: the
      day number less 40 when it is above 40, the century '19' when the year
      is past this year's last two digits. */
  lemma ValidCodeBirthDate(cf: string, currentYear: nat)
    requires MatchesLayout(cf)
    ensures var dd := TwoDigits(cf, 9);
      var day := if dd > 40 then dd - 40 else dd;
      var century := if TwoDigits(cf, 6) > currentYear % 100 then "19" else "20";
      ExtractBirthDateFromCF(cf, currentYear)
        == Some(century + cf[6..8] + "-" + MonthPart(cf[8]) + "-" + PadStart2(NatToString(day)))
      && day < 60
  {
    ValidCodeNumbers(cf);
    var dd := TwoDigits(cf, 9);
    var day := if dd > 40 then dd - 40 else dd;
    assert DayNumber(cf) == Some(day);
    assert NumberText(Some(day)) == NatToString(day);
  }

  /** The birth date read from a code of the valid layout with a month
      letter is ten characters long. */
  lemma ValidBirthDateLength(cf: string, currentYear: nat)
    requires MatchesLayout(cf) && cf[8] in MonthLetters
    ensures |ExtractBirthDateFromCF(cf, currentYear).value| == 10
  {
    ValidCodeNumbers(cf);
    MonthCodeLetters(cf[8]);
    var dd := TwoDigits(cf, 9);
    var day := if dd > 40 then dd - 40 else dd;
    assert DayNumber(cf) == Some(day);
    assert NumberText(Some(day)) == NatToString(day);
    SmallNatText(day);
    assert |PadStart2(NumberText(DayNumber(cf)))| == 2;
  }

  // ------------------------------------------------------------------ age

  /** `calculateAge(birthDate)` with today's date passed in: absent without a
      birth date, else the difference of the years less one when today's
      month and day come before the birth month and day. */
  function CalculateAge(birthDate: Option<Date>, today: Date): Option<int> {
    match birthDate
    case None => None
    case Some(birth) =>
      var age := today.year - birth.year;
      var monthDiff := today.month - birth.month;
      Some(if monthDiff < 0 || (monthDiff == 0 && today.day < birth.day) then age - 1 else age)
  }

  /** A date whose month and day are in the calendar's ranges. */
  predicate CalendarDate(d: Date) {
    1 <= d.month <= 12 && 1 <= d.day <= 31
  }

  /** The age is the number of completed years: the a-th anniversary of the
      birth falls on or before today exactly when a is at most the age. */
  lemma AgeCountsAnniversaries(birth: Date, today: Date, a: int)
    requires CalendarDate(birth) && CalendarDate(today)
    ensures DateKey(Date(birth.year + a, birth.month, birth.day)) <= DateKey(today)
      <==> a <= CalculateAge(Some(birth), today).value
  {
    var age := CalculateAge(Some(birth), today).value;
    var anniversary := Date(birth.year + a, birth.month, birth.day);
    assert DateKey(anniversary) == (birth.year + a) * 10000 + (birth.month * 100 + birth.day);
    assert DateKey(today) == today.year * 10000 + (today.month * 100 + today.day);
  }

  /** Nobody born on or before today has a negative age. */
  lemma AgeNonNegative(birth: Date, today: Date)
    requires CalendarDate(birth) && CalendarDate(today) && DateKey(birth) <= DateKey(today)
    ensures CalculateAge(Some(birth), today).value >= 0
  {
    AgeCountsAnniversaries(birth, today, 0);
  }

  // ----------------------------------------------------------- last visit

  /** Milliseconds in a day. */
  const DayMs: int := 1000 * 60 * 60 * 24

  /** `Math.ceil(x / d)` for a positive divisor. */
  function CeilDiv(x: int, d: int): (r: int)
    requires d > 0
    ensures (r - 1) * d < x <= r * d
  {
    -((-x) / d)
  }

  function Abs(x: int): nat { if x < 0 then -x else x }

  /** The result of `checkLastVisit`: absent `daysSince` stands for null. */
  datatype VisitCheck = VisitCheck(needsAlert: bool, daysSince: Option<int>)

  /** The default of `warningDays`. */
  const DefaultWarningDays: int := 30

  /** `checkLastVisit(lastVisitDate, warningDays)` with the visit and the
      present as millisecond timestamps. */
  function CheckLastVisit(lastVisit: Option<int>, now: int, warningDays: int): VisitCheck {
    match lastVisit
    case None => VisitCheck(false, None)
    case Some(last) =>
      var diffDays := CeilDiv(Abs(now - last), DayMs);
      VisitCheck(diffDays >= warningDays, Some(diffDays))
  }

  /** Without a date there is no alert and no count; with one the count is
      the number of started days between the two instants, either way round,
      and the alert fires exactly when it reaches warningDays. */
  lemma LastVisitRule(lastVisit: Option<int>, now: int, warningDays: int)
    ensures lastVisit.None? ==> CheckLastVisit(lastVisit, now, warningDays) == VisitCheck(false, None)
    ensures lastVisit.Some? ==>
      var c := CheckLastVisit(lastVisit, now, warningDays);
      var gap := Abs(now - lastVisit.value);
      c.daysSince.Some? && c.daysSince.value >= 0
      && (c.daysSince.value - 1) * DayMs < gap <= c.daysSince.value * DayMs
      && (c.needsAlert <==> c.daysSince.value >= warningDays)
      && CheckLastVisit(Some(now), lastVisit.value, warningDays) == c
  {
  }
}
