/**
 * The date label of a chat message: "Today", "Yesterday", or the date written
 * DD/MM/YYYY. Dates are calendar triples (proleptic Gregorian, month counted 1..12);
 * the caller supplies both the message's date and today's date.
 */
module DateUtils {
  import opened JsText

  datatype CalendarDate = CalendarDate(year: int, month: int, day: int)

  predicate IsLeapYear(year: int) {
    year % 4 == 0 && (year % 100 != 0 || year % 400 == 0)
  }

  function DaysInMonth(year: int, month: int): (n: int)
    requires 1 <= month <= 12
    ensures 28 <= n <= 31
    ensures month == 2 ==> (n == 29 <==> IsLeapYear(year))
    ensures month != 2 ==> n >= 30
  {
    if month == 2 then (if IsLeapYear(year) then 29 else 28)
    else if month == 4 || month == 6 || month == 9 || month == 11 then 30
    else 31
  }

  predicate IsValidDate(d: CalendarDate) {
    1 <= d.month <= 12 && 1 <= d.day <= DaysInMonth(d.year, d.month)
  }

  /** A day that exists on the calendar: what a JavaScript `Date` always denotes. */
  type Date = d: CalendarDate | IsValidDate(d) witness CalendarDate(1970, 1, 1)

  /** Calendar order: `a` is an earlier day than `b`. */
  predicate Before(a: CalendarDate, b: CalendarDate) {
    a.year < b.year
    || (a.year == b.year && (a.month < b.month || (a.month == b.month && a.day < b.day)))
  }

  /**
   * `date.setDate(date.getDate() - 1)`: the day before, rolling back into the
   * last day of the previous month, and from 1 January into 31 December.
   */
  function PreviousDay(d: Date): (p: Date)
    ensures Before(p, d)
  {
    if d.day > 1 then CalendarDate(d.year, d.month, d.day - 1)
    else if d.month > 1 then CalendarDate(d.year, d.month - 1, DaysInMonth(d.year, d.month - 1))
    else CalendarDate(d.year - 1, 12, 31)
  }

  /** No day of the calendar lies strictly between `PreviousDay(d)` and `d`. */
  lemma PreviousDayIsAdjacent(d: Date, e: Date)
    ensures !(Before(PreviousDay(d), e) && Before(e, d))
  {
  }

  lemma PreviousDayRollsOver(year: int)
    ensures PreviousDay(CalendarDate(year, 3, 1))
         == CalendarDate(year, 2, if IsLeapYear(year) then 29 else 28)
    ensures PreviousDay(CalendarDate(year, 1, 1)) == CalendarDate(year - 1, 12, 31)
    ensures PreviousDay(CalendarDate(year, 5, 1)) == CalendarDate(year, 4, 30)
    ensures PreviousDay(CalendarDate(year, 8, 1)) == CalendarDate(year, 7, 31)
  {
  }

  /** Two-character day and month and the year, joined by slashes. */
  function JoinDate(dd: string, mm: string, yyyy: string): (s: string)
    requires |dd| == 2 && |mm| == 2
    ensures |s| == 6 + |yyyy| && s[2] == '/' && s[5] == '/'
    ensures s[0] == dd[0] && s[1] == dd[1] && s[3] == mm[0] && s[4] == mm[1]
    ensures s[..2] == dd && s[3..5] == mm && s[6..] == yyyy
  {
    dd + ['/'] + mm + ['/'] + yyyy
  }

  /** `formatDateString`: day and month zero-padded to two digits, then the full year. */
  function FormatDateString(d: Date): (s: string)
    ensures |s| >= 7 && s[2] == '/' && s[5] == '/'
    ensures IsDigit(s[0]) && IsDigit(s[1]) && IsDigit(s[3]) && IsDigit(s[4])
  {
    JoinDate(ZeroPad2(d.day), ZeroPad2(d.month), IntToString(d.year))
  }

  /** Reads a DD/MM/YYYY string back into its calendar triple. */
  function ParseDateString(s: string): CalendarDate
    requires |s| >= 6
  {
    CalendarDate(SignedDecimalValue(s[6..]), DecimalValue(s[3..5]), DecimalValue(s[..2]))
  }

  lemma FormatDateStringRoundTrip(d: Date)
    ensures ParseDateString(FormatDateString(d)) == d
  {
    ZeroPad2RoundTrip(d.day);
    ZeroPad2RoundTrip(d.month);
    SignedDecimalValueOfIntToString(d.year);
  }

  /** Two dates are written the same exactly when they are the same day. */
  lemma FormatDateStringInjective(a: Date, b: Date)
    ensures FormatDateString(a) == FormatDateString(b) <==> a == b
  {
    FormatDateStringRoundTrip(a);
    FormatDateStringRoundTrip(b);
  }

  /**
   * `formatMessageDate` once the timestamp has been read as the calendar day
   * `messageDate`. The dates are compared through their formatted strings, as in the
   * source; the final `toLocaleDateString('en-GB', ...)` yields the same DD/MM/YYYY text.
   */
  function FormatMessageDate(messageDate: Date, today: Date): (dateLabel: string)
  {
    var messageDateStr := FormatDateString(messageDate);
    var todayStr := FormatDateString(today);
    var yesterdayStr := FormatDateString(PreviousDay(today));
    if messageDateStr == todayStr then "Today"
    else if messageDateStr == yesterdayStr then "Yesterday"
    else messageDateStr
  }

  lemma LabelIsToday(messageDate: Date, today: Date)
    ensures FormatMessageDate(messageDate, today) == "Today" <==> messageDate == today
  {
    FormatDateStringInjective(messageDate, today);
    FormatDateStringInjective(messageDate, PreviousDay(today));
  }

  lemma LabelIsYesterday(messageDate: Date, today: Date)
    ensures FormatMessageDate(messageDate, today) == "Yesterday"
        <==> messageDate != today && messageDate == PreviousDay(today)
  {
    FormatDateStringInjective(messageDate, today);
    FormatDateStringInjective(messageDate, PreviousDay(today));
  }

  /** Any other day is labelled with its own DD/MM/YYYY text, which reads back as that day. */
  lemma LabelIsDate(messageDate: Date, today: Date)
    requires messageDate != today && messageDate != PreviousDay(today)
    ensures FormatMessageDate(messageDate, today) == FormatDateString(messageDate)
    ensures ParseDateString(FormatMessageDate(messageDate, today)) == messageDate
  {
    FormatDateStringInjective(messageDate, today);
    FormatDateStringInjective(messageDate, PreviousDay(today));
    FormatDateStringRoundTrip(messageDate);
  }

  /**
   * Every label holds a character that is not a digit, so no label is an array
   * index and an object keyed by labels lists its keys in insertion order.
   */
  lemma LabelIsNotArrayIndex(messageDate: Date, today: Date)
    ensures exists i :: 0 <= i < |FormatMessageDate(messageDate, today)|
                        && !IsDigit(FormatMessageDate(messageDate, today)[i])
  {
    var dateLabel := FormatMessageDate(messageDate, today);
    var written := FormatDateString(messageDate);
    assert dateLabel == "Today" || dateLabel == "Yesterday" || dateLabel == written;
    if dateLabel == written {
      assert 2 < |dateLabel| && !IsDigit(dateLabel[2]);
    } else {
      assert 0 < |dateLabel| && !IsDigit(dateLabel[0]);
    }
  }

  /** Different days never share a label, so a label names exactly one day. */
  lemma LabelInjective(a: Date, b: Date, today: Date)
    ensures FormatMessageDate(a, today) == FormatMessageDate(b, today) <==> a == b
  {
    LabelIsToday(a, today);
    LabelIsToday(b, today);
    LabelIsYesterday(a, today);
    LabelIsYesterday(b, today);
    var la, lb := FormatMessageDate(a, today), FormatMessageDate(b, today);
    if la == lb && la != "Today" && la != "Yesterday" {
      LabelIsDate(a, today);
      LabelIsDate(b, today);
    }
  }
}
