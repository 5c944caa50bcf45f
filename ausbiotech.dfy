/** The calendar requests of `AusbiotechEventSpider.start_requests` in
    event/event/spiders/ausbiotech/spiders.py: one calendar page per month
    for the 24 months starting with the current one. The current month and
    year come from the clock and are parameters. */
module Ausbiotech {
  import opened Text

  const BaseUrl: string := "https://www.ausbiotech.org"
  const EventsPath: string := "/events/calendar_month"

  /** The month and year `i` months after `currMo`/`currYr`. Python's `%`
      and `//` by 12 floor; for a positive divisor Dafny's agree with them. */
  function MonthYear(currMo: int, currYr: int, i: int): (my: (int, int))
    ensures 1 <= my.0 <= 12
  {
    var total := currMo + i;
    ((total - 1) % 12 + 1, currYr + (total - 1) / 12)
  }

  /** The calendar URL for a month and year. */
  function CalendarUrl(mo: int, yr: int): string
  {
    BaseUrl + EventsPath + "?month=" + IntToStr(mo) + "&year=" + IntToStr(yr)
  }

  /** `start_requests`, with the requests standing for their URLs. */
  method StartRequests(currMo: int, currYr: int) returns (urls: seq<string>)
    ensures |urls| == 24
    ensures forall i :: 0 <= i < 24 ==>
      urls[i] == CalendarUrl(MonthYear(currMo, currYr, i).0, MonthYear(currMo, currYr, i).1)
  {
    urls := [];
    var i := 0;
    while i < 24
      invariant i <= 24 && |urls| == i
      invariant forall j :: 0 <= j < i ==>
        urls[j] == CalendarUrl(MonthYear(currMo, currYr, j).0, MonthYear(currMo, currYr, j).1)
      decreases 24 - i
    {
      var moTotal := currMo + i;
      var mo := (moTotal - 1) % 12 + 1;
      var yr := currYr + (moTotal - 1) / 12;
      urls := urls + [CalendarUrl(mo, yr)];
      i := i + 1;
    }
  }

  /** The first request is for the current month of the current year. */
  lemma FirstMonthIsCurrent(currMo: int, currYr: int)
    requires 1 <= currMo <= 12
    ensures MonthYear(currMo, currYr, 0) == (currMo, currYr)
  {
  }

  /** Consecutive requests are one month apart: `12 * yr + mo` grows by
      one, so December is followed by January of the next year. */
  lemma NextMonth(currMo: int, currYr: int, i: int)
    ensures var (mo, yr) := MonthYear(currMo, currYr, i);
      var (mo', yr') := MonthYear(currMo, currYr, i + 1);
      12 * yr' + mo' == 12 * yr + mo + 1
      && (mo == 12 ==> mo' == 1 && yr' == yr + 1)
      && (mo < 12 ==> mo' == mo + 1 && yr' == yr)
  {
    var t := currMo + i - 1;
    assert t == 12 * (t / 12) + t % 12;
    assert t + 1 == 12 * ((t + 1) / 12) + (t + 1) % 12;
    if t % 12 == 11 {
      assert (t + 1) % 12 == 0 && (t + 1) / 12 == t / 12 + 1;
    } else {
      assert (t + 1) % 12 == t % 12 + 1 && (t + 1) / 12 == t / 12;
    }
  }
}
