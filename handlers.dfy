/**
 * The bot's three entry points over the fixed country registry: the holiday
 * command, the driving-ban command and the daily job that posts both to the
 * channel. Everything registry-independent lives in `Holidays`,
 * `DrivingBans` and `BanSummary`; this module only plugs in the table.
 */
module Handlers {
  import opened Results
  import opened PyText
  import opened Registry
  import opened DrivingBans
  import opened BanSummary
  import opened Holidays

  /**
   * `fetch_driving_bans` from the page's text lines: the page's lines are
   * stripped, a missing marker is the error `list.index` raises, and on
   * success the result is the ban table of the window for the registry's
   * display names.
   */
  method FetchDrivingBans(page: seq<string>) returns (r: Result<BanTable, ScanError>)
    ensures r.Failure? <==> Window(StrippedLines(page)).Failure?
    ensures r.Failure? ==> r.error == Window(StrippedLines(page)).error
    ensures r.Success? ==> IsBanTable(Window(StrippedLines(page)).value, Names(), r.value)
    ensures r.Success? && Window(StrippedLines(page)).value == [] ==> r.value == BanTable([], map[])
  {
    var window := Window(StrippedLines(page));
    if window.Failure? {
      return Failure(window.error);
    }
    var t := TabulateBans(window.value, Names());
    if window.value == [] {
      EmptyWindowTable(Names(), t);
    }
    r := Success(t);
  }

  /** Every country in a ban table's order has a text. */
  lemma OrderHasText(w: seq<string>, names: set<string>, t: BanTable)
    requires IsBanTable(w, names, t)
    ensures forall i :: 0 <= i < |t.order| ==> t.order[i] in t.text
  {
    forall i | 0 <= i < |t.order| ensures t.order[i] in t.text {
      assert t.order[i] in t.order;
    }
  }

  /**
   * The reply to the holiday command for the registry: the joined messages,
   * or the fixed text when there are none; a non-empty joined reply starts
   * with the calendar marker and so is never the fixed text.
   */
  function HolidayReply(fetch: Fetch, year: int, today: string): (r: string)
    ensures TodayMessages(Countries(), fetch, year, today, |Countries()|) == [] ==> r == NoHolidays
    ensures TodayMessages(Countries(), fetch, year, today, |Countries()|) != [] ==>
              r == Join("\n", TodayMessages(Countries(), fetch, year, today, |Countries()|)) && r != NoHolidays
  {
    var msgs := TodayMessages(Countries(), fetch, year, today, |Countries()|);
    if msgs == [] then NoHolidays
    else
      TodayMessagesMarked(Countries(), fetch, year, today, |Countries()|);
      JoinMarked(msgs);
      Reply(msgs)
  }

  /**
   * The driving-ban command: one reply per scanned country, in scan order;
   * when a marker is missing the handler stops before replying at all.
   */
  method DrivingBanHandler(page: seq<string>) returns (bans: Result<BanTable, ScanError>, sent: seq<string>)
    ensures bans.Failure? <==> Window(StrippedLines(page)).Failure?
    ensures bans.Failure? ==> sent == []
    ensures bans.Success? ==> IsBanTable(Window(StrippedLines(page)).value, Names(), bans.value)
    ensures bans.Success? ==> (forall i :: 0 <= i < |bans.value.order| ==> bans.value.order[i] in bans.value.text)
    ensures bans.Success? ==> sent == BanMessages(bans.value.order, bans.value.text, |bans.value.order|)
  {
    bans := FetchDrivingBans(page);
    if bans.Failure? {
      return bans, [];
    }
    OrderHasText(Window(StrippedLines(page)).value, Names(), bans.value);
    sent := SendBanMessages(bans.value);
  }

  /**
   * The daily job: first every holiday message for the registry, then the
   * ban messages; a missing marker aborts the job after the holiday
   * messages, so no ban message is sent.
   */
  method ScheduledJob(fetch: Fetch, year: int, today: string, page: seq<string>)
      returns (bans: Result<BanTable, ScanError>, sent: seq<string>)
    ensures bans.Failure? <==> Window(StrippedLines(page)).Failure?
    ensures bans.Failure? ==> sent == TodayMessages(Countries(), fetch, year, today, |Countries()|)
    ensures bans.Success? ==> IsBanTable(Window(StrippedLines(page)).value, Names(), bans.value)
    ensures bans.Success? ==> (forall i :: 0 <= i < |bans.value.order| ==> bans.value.order[i] in bans.value.text)
    ensures bans.Success? ==>
              sent == TodayMessages(Countries(), fetch, year, today, |Countries()|)
                      + BanMessages(bans.value.order, bans.value.text, |bans.value.order|)
  {
    var holidays := SendTodayHolidays(Countries(), fetch, year, today);
    var banMsgs;
    bans, banMsgs := DrivingBanHandler(page);
    sent := holidays + banMsgs;
  }
}
