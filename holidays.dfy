/**
 * The holiday announcements: for every registered country, in registry
 * order, the public holidays the holiday service lists for the year, and one
 * message for each of those dated today.
 */
module Holidays {
  import opened Seqs
  import opened PyText
  import opened Nations

  /** The two fields of a holiday record the bot reads. */
  datatype Holiday = Holiday(date: string, localName: string)

  /** The holiday service's answer: a success status and, when successful, the records. */
  datatype Response = Response(ok: bool, records: seq<Holiday>)

  /** The service's answer for a country code and a year (the network request, as a parameter). */
  type Fetch = (string, int) -> Response

  const NoHolidays := "No holidays today."

  /** `get_holidays`: the records of a successful answer, no records otherwise. */
  function GetHolidays(resp: Response): (r: seq<Holiday>)
    ensures resp.ok ==> r == resp.records
    ensures !resp.ok ==> r == []
  {
    if resp.ok then resp.records else []
  }

  /** The holidays listed for one country. */
  function HolidaysOf(fetch: Fetch, c: Country, year: int): (r: seq<Holiday>)
    ensures fetch(c.code, year).ok ==> r == fetch(c.code, year).records
    ensures !fetch(c.code, year).ok ==> r == []
  {
    GetHolidays(fetch(c.code, year))
  }

  /** The text announcing one holiday in one country. */
  function HolidayMessage(name: string, h: Holiday): (r: string)
    ensures Marked(r)
  {
    "\U{1F4C5} Today in " + name + ": " + h.localName
  }

  /** A text that opens with the calendar sign of the holiday messages. */
  predicate Marked(m: string) {
    |m| > 0 && m[0] == '\U{1F4C5}'
  }

  /** The messages for the holidays among the first `n` records of `hs` dated `today`, in record order. */
  function CountryMessages(name: string, hs: seq<Holiday>, today: string, n: nat): (r: seq<string>)
    requires n <= |hs|
    ensures |r| <= n
  {
    if n == 0 then []
    else
      CountryMessages(name, hs, today, n - 1)
        + (if hs[n - 1].date == today then [HolidayMessage(name, hs[n - 1])] else [])
  }

  /** Every record dated today among the first `n` has its message. */
  lemma {:induction false} CountryMessagesComplete(name: string, hs: seq<Holiday>, today: string, n: nat)
    requires n <= |hs|
    ensures forall j :: 0 <= j < n && hs[j].date == today ==>
              HolidayMessage(name, hs[j]) in CountryMessages(name, hs, today, n)
  {
    if n > 0 {
      CountryMessagesComplete(name, hs, today, n - 1);
    }
  }

  /** Every message comes from a record dated today among the first `n`. */
  lemma {:induction false} CountryMessagesSound(name: string, hs: seq<Holiday>, today: string, n: nat, m: string)
    requires n <= |hs|
    requires m in CountryMessages(name, hs, today, n)
    ensures exists j :: 0 <= j < n && hs[j].date == today && m == HolidayMessage(name, hs[j])
  {
    if m in CountryMessages(name, hs, today, n - 1) {
      CountryMessagesSound(name, hs, today, n - 1, m);
    } else {
      assert hs[n - 1].date == today && m == HolidayMessage(name, hs[n - 1]);
    }
  }

  /** Reading more records keeps every message of the first `m` records where it was. */
  lemma {:induction false} CountryMessagesPrefix(name: string, hs: seq<Holiday>, today: string, m: nat, n: nat, k: nat)
    requires m <= n <= |hs| && k < |CountryMessages(name, hs, today, m)|
    ensures k < |CountryMessages(name, hs, today, n)|
    ensures CountryMessages(name, hs, today, n)[k] == CountryMessages(name, hs, today, m)[k]
    decreases n - m
  {
    if m < n {
      CountryMessagesPrefix(name, hs, today, m, n - 1, k);
    }
  }

  /** How many of the first `n` records are dated `today`. */
  function MatchCount(hs: seq<Holiday>, today: string, n: nat): (c: nat)
    requires n <= |hs|
    ensures c <= n
  {
    if n == 0 then 0
    else MatchCount(hs, today, n - 1) + (if hs[n - 1].date == today then 1 else 0)
  }

  /** One message per record dated today: as many messages as such records among the first `n`. */
  lemma {:induction false} CountryMessagesCount(name: string, hs: seq<Holiday>, today: string, n: nat)
    requires n <= |hs|
    ensures |CountryMessages(name, hs, today, n)| == MatchCount(hs, today, n)
  {
    if n > 0 {
      CountryMessagesCount(name, hs, today, n - 1);
    }
  }

  /**
   * The message of record `j`, dated today, sits at the position that counts
   * the records dated today ahead of it: the service's order is kept.
   */
  lemma CountryMessageAt(name: string, hs: seq<Holiday>, today: string, n: nat, j: nat)
    requires j < n <= |hs| && hs[j].date == today
    ensures MatchCount(hs, today, j) < |CountryMessages(name, hs, today, n)|
    ensures CountryMessages(name, hs, today, n)[MatchCount(hs, today, j)] == HolidayMessage(name, hs[j])
  {
    CountryMessagesCount(name, hs, today, j);
    CountryMessagesPrefix(name, hs, today, j + 1, n, MatchCount(hs, today, j));
  }

  /** The messages for all the records of one country. */
  function AllCountryMessages(fetch: Fetch, c: Country, year: int, today: string): seq<string> {
    var hs := HolidaysOf(fetch, c, year);
    CountryMessages(c.name, hs, today, |hs|)
  }

  /** The messages of the list comprehension for the first `n` countries of `cs`, country by country. */
  function TodayMessages(cs: seq<Country>, fetch: Fetch, year: int, today: string, n: nat): (r: seq<string>)
    requires n <= |cs|
  {
    if n == 0 then []
    else TodayMessages(cs, fetch, year, today, n - 1) + AllCountryMessages(fetch, cs[n - 1], year, today)
  }

  /** Every holiday dated today of one of the first `n` countries has its message. */
  lemma {:induction false} TodayMessagesComplete(cs: seq<Country>, fetch: Fetch, year: int, today: string, n: nat)
    requires n <= |cs|
    ensures forall i, h :: 0 <= i < n && h in HolidaysOf(fetch, cs[i], year) && h.date == today ==>
              HolidayMessage(cs[i].name, h) in TodayMessages(cs, fetch, year, today, n)
  {
    if n > 0 {
      TodayMessagesComplete(cs, fetch, year, today, n - 1);
      var hs := HolidaysOf(fetch, cs[n - 1], year);
      CountryMessagesComplete(cs[n - 1].name, hs, today, |hs|);
      forall h | h in hs && h.date == today
        ensures HolidayMessage(cs[n - 1].name, h) in TodayMessages(cs, fetch, year, today, n)
      {
        var j :| 0 <= j < |hs| && hs[j] == h;
      }
    }
  }

  /** Every message comes from a holiday dated today of one of the first `n` countries. */
  lemma {:induction false} TodayMessagesSound(cs: seq<Country>, fetch: Fetch, year: int, today: string, n: nat, m: string)
    requires n <= |cs|
    requires m in TodayMessages(cs, fetch, year, today, n)
    ensures exists i, h :: 0 <= i < n && h in HolidaysOf(fetch, cs[i], year) &&
                           h.date == today && m == HolidayMessage(cs[i].name, h)
  {
    if m in TodayMessages(cs, fetch, year, today, n - 1) {
      TodayMessagesSound(cs, fetch, year, today, n - 1, m);
    } else {
      var hs := HolidaysOf(fetch, cs[n - 1], year);
      CountryMessagesSound(cs[n - 1].name, hs, today, |hs|, m);
      var j :| 0 <= j < |hs| && hs[j].date == today && m == HolidayMessage(cs[n - 1].name, hs[j]);
      assert hs[j] in hs;
    }
  }

  /** Every message of the comprehension opens with the calendar sign. */
  lemma TodayMessagesMarked(cs: seq<Country>, fetch: Fetch, year: int, today: string, n: nat)
    requires n <= |cs|
    ensures forall k :: 0 <= k < |TodayMessages(cs, fetch, year, today, n)| ==>
              Marked(TodayMessages(cs, fetch, year, today, n)[k])
  {
    var msgs := TodayMessages(cs, fetch, year, today, n);
    forall k | 0 <= k < |msgs| ensures Marked(msgs[k]) {
      TodayMessagesSound(cs, fetch, year, today, n, msgs[k]);
    }
  }

  /** The messages of the first `m` countries come ahead of those of the following ones. */
  lemma {:induction false} TodayMessagesPrefix(cs: seq<Country>, fetch: Fetch, year: int, today: string,
                                               m: nat, n: nat, k: nat)
    requires m <= n <= |cs| && k < |TodayMessages(cs, fetch, year, today, m)|
    ensures k < |TodayMessages(cs, fetch, year, today, n)|
    ensures TodayMessages(cs, fetch, year, today, n)[k] == TodayMessages(cs, fetch, year, today, m)[k]
    decreases n - m
  {
    if m < n {
      TodayMessagesPrefix(cs, fetch, year, today, m, n - 1, k);
    }
  }

  /** How many holidays dated today the first `n` countries have, all told. */
  function TodayCount(cs: seq<Country>, fetch: Fetch, year: int, today: string, n: nat): nat
    requires n <= |cs|
  {
    if n == 0 then 0
    else
      var hs := HolidaysOf(fetch, cs[n - 1], year);
      TodayCount(cs, fetch, year, today, n - 1) + MatchCount(hs, today, |hs|)
  }

  /** There is one message per holiday dated today, over all the first `n` countries. */
  lemma {:induction false} TodayMessagesCount(cs: seq<Country>, fetch: Fetch, year: int, today: string, n: nat)
    requires n <= |cs|
    ensures |TodayMessages(cs, fetch, year, today, n)| == TodayCount(cs, fetch, year, today, n)
  {
    if n > 0 {
      TodayMessagesCount(cs, fetch, year, today, n - 1);
      var hs := HolidaysOf(fetch, cs[n - 1], year);
      CountryMessagesCount(cs[n - 1].name, hs, today, |hs|);
    }
  }

  /**
   * The message of the holiday `j` of country `i`, dated today, comes after
   * those of all earlier countries and of the earlier records of country `i`
   * dated today: registry order first, then the service's order.
   */
  lemma TodayMessageAt(cs: seq<Country>, fetch: Fetch, year: int, today: string, n: nat, i: nat, j: nat)
    requires i < n <= |cs|
    requires j < |HolidaysOf(fetch, cs[i], year)| && HolidaysOf(fetch, cs[i], year)[j].date == today
    ensures var hs, k := HolidaysOf(fetch, cs[i], year), TodayCount(cs, fetch, year, today, i);
      k + MatchCount(hs, today, j) < |TodayMessages(cs, fetch, year, today, n)| &&
      TodayMessages(cs, fetch, year, today, n)[k + MatchCount(hs, today, j)] == HolidayMessage(cs[i].name, hs[j])
  {
    TodayMessagesCount(cs, fetch, year, today, i);
    TodayMessageAfter(cs, fetch, year, today, n, i, j);
  }

  /** The same position, counted from where country `i`'s messages start. */
  lemma TodayMessageAfter(cs: seq<Country>, fetch: Fetch, year: int, today: string, n: nat, i: nat, j: nat)
    requires i < n <= |cs|
    requires j < |HolidaysOf(fetch, cs[i], year)| && HolidaysOf(fetch, cs[i], year)[j].date == today
    ensures var hs, k := HolidaysOf(fetch, cs[i], year), |TodayMessages(cs, fetch, year, today, i)|;
      k + MatchCount(hs, today, j) < |TodayMessages(cs, fetch, year, today, n)| &&
      TodayMessages(cs, fetch, year, today, n)[k + MatchCount(hs, today, j)] == HolidayMessage(cs[i].name, hs[j])
  {
    var hs := HolidaysOf(fetch, cs[i], year);
    CountryMessageAt(cs[i].name, hs, today, |hs|, j);
    var c := MatchCount(hs, today, j);
    CountryBlockAt(cs, fetch, year, today, i, c);
    TodayMessagesPrefix(cs, fetch, year, today, i + 1, n, |TodayMessages(cs, fetch, year, today, i)| + c);
  }

  /** Country `i`'s messages follow those of the countries before it. */
  lemma CountryBlockAt(cs: seq<Country>, fetch: Fetch, year: int, today: string, i: nat, c: nat)
    requires i < |cs| && c < |AllCountryMessages(fetch, cs[i], year, today)|
    ensures var before := TodayMessages(cs, fetch, year, today, i);
      |before| + c < |TodayMessages(cs, fetch, year, today, i + 1)| &&
      TodayMessages(cs, fetch, year, today, i + 1)[|before| + c] == AllCountryMessages(fetch, cs[i], year, today)[c]
  {
  }

  /** `'\n'.join(msgs) or 'No holidays today.'` */
  function Reply(msgs: seq<string>): (r: string)
    ensures r != ""
    ensures Join("\n", msgs) != "" ==> r == Join("\n", msgs)
    ensures Join("\n", msgs) == "" ==> r == NoHolidays
  {
    var joined := Join("\n", msgs);
    if joined == "" then NoHolidays else joined
  }

  /** A joined list of marked texts is marked, and so not empty. */
  lemma JoinMarked(msgs: seq<string>)
    requires msgs != [] && forall k :: 0 <= k < |msgs| ==> Marked(msgs[k])
    ensures Marked(Join("\n", msgs))
  {
    JoinStartsWithFirst("\n", msgs);
  }

  /** When every request is answered with a non-success status the reply is "No holidays today.", as when nothing falls on `today`. */
  lemma FailedRequestsMeanNoHolidays(cs: seq<Country>, fetch: Fetch, year: int, today: string)
    requires forall i :: 0 <= i < |cs| ==> !fetch(cs[i].code, year).ok
    ensures TodayMessages(cs, fetch, year, today, |cs|) == []
    ensures Reply(TodayMessages(cs, fetch, year, today, |cs|)) == NoHolidays
  {
    var msgs := TodayMessages(cs, fetch, year, today, |cs|);
    if msgs != [] {
      HeadIsMember(msgs);
      TodayMessagesSound(cs, fetch, year, today, |cs|, msgs[0]);
      assert false;
    }
  }

  /**
   * The loops of the scheduled job: for each country in order (the job
   * passes the registry), for each of its records in order, send a message
   * when the record is dated today.
   */
  method SendTodayHolidays(cs: seq<Country>, fetch: Fetch, year: int, today: string) returns (sent: seq<string>)
    ensures sent == TodayMessages(cs, fetch, year, today, |cs|)
  {
    sent := [];
    for i := 0 to |cs|
      invariant sent == TodayMessages(cs, fetch, year, today, i)
    {
      var c := cs[i];
      var hs := GetHolidays(fetch(c.code, year));
      ghost var before := sent;
      for j := 0 to |hs|
        invariant sent == before + CountryMessages(c.name, hs, today, j)
      {
        var h := hs[j];
        if h.date == today {
          sent := sent + [HolidayMessage(c.name, h)];
        }
      }
    }
  }
}
