/**
 Dates of the form YYYY-MM-DD: the pattern the capturer checks (scripts/capture_gmail_search_chain.js) and
 the calendar the read manifest checks against (src/matters/providers/gmail/adapter.py).
 */
module CalendarDates {

  predicate IsDigit(c: char) {
    '0' <= c <= '9'
  }

  /** `^\d{4}-\d{2}-\d{2}$` */
  predicate IsDate(s: string) {
    |s| == 10 && forall i :: 0 <= i < 10 ==> if i == 4 || i == 7 then s[i] == '-' else IsDigit(s[i])
  }

  function Digit(c: char): nat
    requires IsDigit(c)
  {
    c as int - '0' as int
  }

  function Year(s: string): nat
    requires IsDate(s)
  {
    1000 * Digit(s[0]) + 100 * Digit(s[1]) + 10 * Digit(s[2]) + Digit(s[3])
  }

  function Month(s: string): nat
    requires IsDate(s)
  {
    10 * Digit(s[5]) + Digit(s[6])
  }

  function Day(s: string): nat
    requires IsDate(s)
  {
    10 * Digit(s[8]) + Digit(s[9])
  }

  predicate IsLeap(year: nat) {
    year % 4 == 0 && (year % 100 != 0 || year % 400 == 0)
  }

  function DaysIn(year: nat, month: nat): nat {
    if month == 2 then if IsLeap(year) then 29 else 28
    else if month == 4 || month == 6 || month == 9 || month == 11 then 30
    else 31
  }

  predicate IsCalendarDate(s: string) {
    IsDate(s) && Year(s) >= 1 && 1 <= Month(s) <= 12 && 1 <= Day(s) <= DaysIn(Year(s), Month(s))
  }

  /** What `date.fromisoformat` accepts. Other ISO forms may be accepted too; of this form, exactly the
      dates of the calendar. */
  ghost predicate LawfulCalendar(f: string -> bool) {
    forall s :: IsDate(s) ==> (f(s) <==> IsCalendarDate(s))
  }

  type Calendar = f: string -> bool | LawfulCalendar(f) witness (s: string) => IsCalendarDate(s)

  // ----- the dates of the calendar and their texts

  /** Every fourth year is a leap year, but for the centuries that no 400 years divide; the days of the months follow. */
  lemma DaysAre(year: nat, month: nat)
    ensures !IsLeap(year) <==> year % 4 != 0 || (year % 100 == 0 && year % 400 != 0)
    ensures month in {1, 3, 5, 7, 8, 10, 12} ==> DaysIn(year, month) == 31
    ensures month in {4, 6, 9, 11} ==> DaysIn(year, month) == 30
    ensures DaysIn(year, 2) == if IsLeap(year) then 29 else 28
  {
  }

  function DigitChar(n: nat): (c: char)
    requires n < 10
    ensures IsDigit(c) && Digit(c) == n
  {
    "0123456789"[n]
  }

  /** The text YYYY-MM-DD of a date. */
  function DateText(year: nat, month: nat, day: nat): (s: string)
    requires year < 10000 && month < 100 && day < 100
    ensures IsDate(s)
  {
    [DigitChar(year / 1000), DigitChar(year / 100 % 10), DigitChar(year / 10 % 10), DigitChar(year % 10), '-',
     DigitChar(month / 10), DigitChar(month % 10), '-', DigitChar(day / 10), DigitChar(day % 10)]
  }

  /** Reading the text of a date gives its year, month and day back. */
  lemma DateTextReads(year: nat, month: nat, day: nat)
    requires year < 10000 && month < 100 && day < 100
    ensures var s := DateText(year, month, day); Year(s) == year && Month(s) == month && Day(s) == day
  {
    var y2 := year / 10;
    assert year / 100 == y2 / 10 && year / 1000 == y2 / 10 / 10;
  }

  lemma SameDigits(a: nat, b: nat, c: nat, d: nat)
    requires a < 1000 && b < 10 && c < 1000 && d < 10 && 10 * a + b == 10 * c + d
    ensures a == c && b == d
  {
  }

  lemma SameDigit(c: char, d: char)
    requires IsDigit(c) && IsDigit(d) && Digit(c) == Digit(d)
    ensures c == d
  {
  }

  /** No two texts of the pattern are the same date. */
  lemma DatesDiffer(s: string, t: string)
    requires IsDate(s) && IsDate(t)
    requires Year(s) == Year(t) && Month(s) == Month(t) && Day(s) == Day(t)
    ensures s == t
  {
    SameDigits(100 * Digit(s[0]) + 10 * Digit(s[1]) + Digit(s[2]), Digit(s[3]),
               100 * Digit(t[0]) + 10 * Digit(t[1]) + Digit(t[2]), Digit(t[3]));
    SameDigits(10 * Digit(s[0]) + Digit(s[1]), Digit(s[2]), 10 * Digit(t[0]) + Digit(t[1]), Digit(t[2]));
    SameDigits(Digit(s[0]), Digit(s[1]), Digit(t[0]), Digit(t[1]));
    SameDigits(Digit(s[5]), Digit(s[6]), Digit(t[5]), Digit(t[6]));
    SameDigits(Digit(s[8]), Digit(s[9]), Digit(t[8]), Digit(t[9]));
    forall i | 0 <= i < 10 && i != 4 && i != 7
      ensures s[i] == t[i]
    {
      SameDigit(s[i], t[i]);
    }
  }

  /** The pattern, character by character. */
  lemma IsDateIs(s: string)
    ensures IsDate(s) <==>
      |s| == 10 && s[4] == s[7] == '-' && forall i :: i in {0, 1, 2, 3, 5, 6, 8, 9} ==> s[i] in "0123456789"
  {
    assert forall k :: 0 <= k < 10 ==> "0123456789"[k] as int == '0' as int + k;
    forall c: char
      ensures IsDigit(c) <==> c in "0123456789"
    {
      if IsDigit(c) {
        assert "0123456789"[Digit(c)] as int == c as int;
      }
    }
  }

  /** Of the texts of the pattern, the dates of the calendar have a year, a month and a day that the calendar has. */
  lemma CalendarDateIff(year: nat, month: nat, day: nat)
    requires year < 10000 && month < 100 && day < 100
    ensures IsCalendarDate(DateText(year, month, day)) <==> year > 0 && 0 < month < 13 && 0 < day && day <= DaysIn(year, month)
  {
    DateTextReads(year, month, day);
  }
}
