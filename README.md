# Holiday and driving-ban bot, modelled in Dafny

`holidays_bot.py` is a Telegram bot with two jobs. It announces the public
holidays falling today in 41 European countries. It also reports the
general driving bans for lorries over 7.5 t, scraped from a web page. This
project models the bot's logic, leaving out its I/O:

- `nations.dfy`: the shape of a registry entry (code and display name).
- `registry.dfy`: the country table `COUNTRIES`, in the dictionary's order,
  and the set of its display names.
- `py_text.dfy`: the Python string operations the bot relies on. These are
  `str.strip` with Python's whitespace set, `s.split(sep)[0]` and
  `sep.join(parts)`.
- `seqs.dfy`: the first and last position of an element in a sequence.
  The first position is `list.index`.
- `driving_bans.dfy`: `fetch_driving_bans` from the page's text lines on.
  - The lines are stripped.
  - The window is cut between the first start marker and the first end
    marker. A missing marker is an error, as it is when `list.index` raises.
  - The window is scanned by an imperative loop. Its invariant ties the
    dictionary being built to a declarative description of the page:
    which country names occur, the lines after each name's last
    occurrence, and insertion order.
  - Each section is joined with spaces.
- `ban_summary.dfy`: the one-sentence summary `info.split('.')[0].strip() + '.'`,
  the `🚚 <country> (>7.5 t): <summary>` message and the loop that sends one
  per country.
- `holidays.dfy`: `get_holidays` (a request answered with a non-success status yields no records), the
  list comprehension of today's holiday messages and the reply
  `'\n'.join(msgs) or 'No holidays today.'`, for any list of countries. It
  also has the nested loops of the scheduled job. Besides saying which
  messages occur, it says where: the message of the `j`-th record of the
  `i`-th country sits after the messages of the earlier countries and the
  earlier records of the same country that are dated today.
- `handlers.dfy`: the three entry points over the registry. These are the
  holiday command's reply, `fetch_driving_bans` with the registry's names,
  the driving-ban command, and the scheduled job that sends the holiday
  messages first and then the ban messages.

The network, the HTML parser, Telegram and the clock are outside the model.
The page arrives as its list of text lines. A holiday service answer arrives
through a function parameter `fetch(code, year)`. Today's date and the year
are parameters. A message that is sent becomes an element of the sequence a
method returns.

Some behaviours of the code are easy to miss:

- A country name that occurs twice in the window restarts its section
  (`bans[cur]=[]`). Its text is then what follows the last occurrence. The
  country keeps the dictionary position of its first occurrence.
- Lines before the first country name in the window are dropped (`elif cur`).
- A country name followed directly by another one gets the empty text. Its
  summary is then just `"."`.
- If the end marker comes before the start marker, the slice is empty and
  the table is empty. This is not an error.
- A holiday request answered with a non-success status is
  indistinguishable from a country with no holidays (`r.json() if r.ok else
  []`). Both give no messages, and when nothing matches the reply is
  "No holidays today.". A request that raises instead is a different matter
  (see "Left out").
- The bot announces only holidays dated exactly today. There is no
  look-ahead window. Each message reads `📅 Today in <name>: <localName>`.

## Model

| member | source | states |
|---|---|---|
| PyText.SkipSpace | holidays_bot.py:35 | the leading-whitespace scan of `strip`: every character skipped is whitespace, and it stops at a non-whitespace character or the end |
| PyText.SkipSpaceBack | holidays_bot.py:35 | the trailing-whitespace scan of `strip`: every character skipped is whitespace, and it stops after a non-whitespace character or at the start |
| PyText.Strip | holidays_bot.py:35 | `str.strip()`: the result is a contiguous part of the input with only whitespace cut from each side, and it neither starts nor ends with whitespace |
| PyText.StripFixed | holidays_bot.py:35 | stripping a text without surrounding whitespace returns it unchanged |
| PyText.StripIdempotent | holidays_bot.py:35 | stripping twice gives the same text as stripping once |
| PyText.StripKeepsOut | holidays_bot.py:58 | stripping never introduces a character (so no full stop reappears after the split) |
| PyText.SepIndex | holidays_bot.py:58 | the scan for the separator: no character skipped is `sep`, and it stops at a `sep` or the end |
| PyText.FirstPiece | holidays_bot.py:58 | `split(sep)[0]`: a prefix of the input free of `sep`, ending just before the first `sep` when there is one |
| PyText.FirstPieceBefore | holidays_bot.py:58 | for `first` without `sep`, the first piece of `first + sep + rest` and of `first` alone is `first` |
| PyText.JoinStartsWithFirst | holidays_bot.py:53 | a non-empty join starts with its first part |
| PyText.JoinAppend | holidays_bot.py:45 | `sep.join` of a non-empty list with one more part is the old join, the separator, then the new part (also the newline join of line 53) |
| Seqs.FirstIndex | holidays_bot.py:36-37 | `list.index`: a position holding the element with no earlier occurrence |
| Seqs.LastIndex | holidays_bot.py:42 | the position of the last occurrence: it holds the element and no later position does |
| Seqs.LastIndexPrepend | holidays_bot.py:42 | the last occurrence moves by the length of a prefix put in front |
| Registry.CodesDistinct | holidays_bot.py:14-26 | the table holds 41 countries and no code occurs twice, as the keys of a Python dictionary cannot; so the holiday loops over the registry ask about each country once |
| Registry.NamesDistinct | holidays_bot.py:14-26 | no two countries share a display name, so a ban section found under a name belongs to exactly one country |
| DrivingBans.IndexOf | holidays_bot.py:36-37 | the first position of a line, or none exactly when the line is absent (where `list.index` raises) |
| DrivingBans.StrippedLinesIdempotent | holidays_bot.py:35 | stripping every line keeps one line per page line, and stripping the stripped lines again changes nothing |
| DrivingBans.Window | holidays_bot.py:36-39 | missing start marker is an error iff absent; missing end marker is an error iff the start is present and the end absent; success iff both markers are present, and then the lines strictly between the first start and first end marker, empty when the end marker comes first; never contains the end marker |
| DrivingBans.WindowBetweenMarkers | holidays_bot.py:36-39 | on a page `pre + [start] + w + [end] + post` with no marker in `pre` and no end marker in `w`, the window is exactly `w` |
| DrivingBans.BodyLines | holidays_bot.py:40-44 | a section holds only non-blank lines of the window that are not country names |
| DrivingBans.BlankStep | holidays_bot.py:40 | skipping a blank line keeps the scan invariant |
| DrivingBans.HeaderStep | holidays_bot.py:41-42 | a country-name line resets that country's section to empty and makes it current; a new country goes to the end of the order, a known one keeps its place |
| DrivingBans.PlainLineKeysAndOrder | holidays_bot.py:40-44 | a blank line or a line that is not a country name adds no country and leaves the order by first occurrence as it was |
| DrivingBans.BodyStep | holidays_bot.py:43-44 | any other line read after a country name is appended to the current country's section and keeps the scan invariant |
| DrivingBans.StrayLineStep | holidays_bot.py:43 | a line that is not a country name, read before any country name, is dropped and keeps the scan invariant |
| DrivingBans.ScanSections | holidays_bot.py:38-44 | the loop's dictionary has exactly the country names occurring in the window as keys; each maps to the non-blank lines after that name's last occurrence up to the next name; the order lists the keys by first occurrence |
| DrivingBans.TabulateBans | holidays_bot.py:45 | the result maps each country to its section joined by single spaces, in first-occurrence order |
| DrivingBans.EmptyWindowTable | holidays_bot.py:38-45 | an empty window gives an empty table |
| Handlers.FetchDrivingBans | holidays_bot.py:33-45 | fails with the missing marker exactly when `Window` does; otherwise returns the table of the stripped page's window against the registry's names, empty when the window is empty |
| DrivingBans.LeadingLinesIgnored | holidays_bot.py:43 | lines before the first country name change neither the countries found nor their texts |
| DrivingBans.RepeatedHeaderResets | holidays_bot.py:42 | a country name occurring again restarts its section: the text is what follows the last occurrence |
| DrivingBans.OneSection | holidays_bot.py:39-44 | a window of one country name and one other line gives that single country with that line as its text |
| BanSummary.Summary | holidays_bot.py:58 | the summary ends in a full stop, contains no other full stop, and has no whitespace at its start or before the full stop |
| BanSummary.SummaryOfFirstSentence | holidays_bot.py:58 | the summary of `first + "." + rest` (or of `first` alone) is `first` stripped plus a full stop, whatever `rest` holds |
| BanSummary.SummaryIdempotent | holidays_bot.py:58 | summarising a summary returns it unchanged |
| BanSummary.BanMessageShape | holidays_bot.py:59 | a message built from a summary starts with the lorry sign, the country and `(>7.5 t): `, then holds exactly the summary: it ends in a full stop with no other full stop after the prefix (the scheduled job builds the same message at line 72) |
| BanSummary.BanMessages | holidays_bot.py:70-73 | one message for each of the first `n` countries of the order |
| BanSummary.BanMessageAt | holidays_bot.py:70-73 | the `i`-th message is the message of the `i`-th country of the order, built from the summary of that country's text |
| BanSummary.SendBanMessages | holidays_bot.py:70-73 | the loop sends exactly `BanMessages` for the whole order: one message per country of the table, in the table's order (the same loop as lines 57-59) |
| Holidays.GetHolidays | holidays_bot.py:28-31 | a successful answer yields its records; a failed one yields none |
| Holidays.HolidaysOf | holidays_bot.py:51 | the records a country contributes: the answer's records when the request for its code and the year succeeds, none otherwise (also line 65) |
| Holidays.HolidayMessage | holidays_bot.py:49 | every holiday message opens with the calendar sign |
| Holidays.CountryMessages | holidays_bot.py:51-52 | at most one message per record of the country |
| Holidays.CountryMessagesComplete | holidays_bot.py:51-52 | every record dated today has its message |
| Holidays.CountryMessagesSound | holidays_bot.py:51-52 | every message comes from a record dated today |
| Holidays.CountryMessagesPrefix | holidays_bot.py:51 | messages keep the order of the service's records: each message built from the first `m` records keeps its position when more records are read |
| Holidays.MatchCount | holidays_bot.py:52 | the number of the first `n` records that are dated today is at most `n` |
| Holidays.CountryMessagesCount | holidays_bot.py:51-52 | a country gives exactly as many messages as it has records dated today |
| Holidays.CountryMessageAt | holidays_bot.py:51-52 | the message of the `j`-th record, when it is dated today, is at the position counting the earlier records dated today |
| Holidays.TodayMessagesMarked | holidays_bot.py:49-52 | every message of the comprehension opens with the calendar sign |
| Holidays.TodayMessagesComplete | holidays_bot.py:49-52 | every holiday dated today of every country gives a message |
| Holidays.TodayMessagesSound | holidays_bot.py:49-52 | every message comes from a holiday dated today of one of the countries |
| Holidays.TodayMessagesPrefix | holidays_bot.py:50 | messages keep the registry's order: each message of the first `m` countries keeps its position when more countries are read |
| Holidays.TodayMessagesCount | holidays_bot.py:49-52 | the comprehension gives exactly as many messages as there are records dated today, summed over the countries |
| Holidays.CountryBlockAt | holidays_bot.py:50-51 | the messages of the `i`-th country follow directly after those of the countries before it |
| Holidays.TodayMessageAfter | holidays_bot.py:49-52 | the message of the `j`-th record of the `i`-th country is at the number of messages of the earlier countries plus the number of that country's earlier records dated today |
| Holidays.TodayMessageAt | holidays_bot.py:49-52 | the same position, counted as the records dated today of the earlier countries plus those of that country's earlier records |
| Holidays.Reply | holidays_bot.py:53 | the reply is never empty; it is the newline join of the messages, or "No holidays today." when that join is empty |
| Holidays.FailedRequestsMeanNoHolidays | holidays_bot.py:31 | when every request is answered with a non-success status there are no messages and the reply is "No holidays today." |
| Holidays.SendTodayHolidays | holidays_bot.py:64-68 | the nested loops send exactly the comprehension's messages, in the same order |
| Handlers.HolidayReply | holidays_bot.py:47-53 | for the registry, the reply is "No holidays today." when no message exists, and otherwise the newline join of the messages, which then differs from "No holidays today." |
| Handlers.DrivingBanHandler | holidays_bot.py:55-59 | no reply when a marker is missing; otherwise the table of the page for the registry and exactly one message per country in its order |
| Handlers.ScheduledJob | holidays_bot.py:61-73 | sends every holiday message of the registry first; then, unless a marker is missing, one ban message per country in the table's order; a missing marker leaves only the holiday messages |
## Left out

- HTTP requests (`requests.get`) are left out. A page is given as its text lines, and a holiday answer as the value of a `fetch(code, year)` parameter.
- HTML parsing (`BeautifulSoup(...).get_text('\n').splitlines()`) is a library call. The model starts from the lines it yields.
- Telegram is left out: `reply_text`, `send_message`, the bot commands, the polling application and the daily job at 09:00 Europe/London. A sent message is an element of the sequence the sending method returns.
- The clock and time zones are left out. Today's ISO date and the year are parameters. The code takes the date in Europe/London and the year from the machine's local clock; the model does not relate the two.
- The `GITHUB_ACTIONS` path of `main`, the environment variables `BOT_TOKEN` and `CHANNEL_ID`, and the `asyncio` entry point are left out. They are wiring only.
- Holiday records are reduced to `date` and `localName`. A record missing either key (a `KeyError` in Python) is not modelled.
- Holidays.SendTodayHolidays: takes the country list as a parameter; the scheduled job passes the registry.
- Handlers.FetchDrivingBans: models the `ValueError` of a missing marker as a `Failure` value naming the marker, instead of an exception.
- DrivingBans.ScanSections: the current country is `Option<string>`. In Python `elif cur` tests truthiness. `cur` is only ever set to a line that passed `if not line: continue`, so it is never empty, and the test is the same as "a country has been seen".
- An exception raised by `requests.get` (a connection error, line 30) or by `r.json()` on a body that is not JSON (line 31) is not modelled. Such an exception aborts the whole handler or job. `holiday_handler` then sends no reply. `scheduled_job` then sends nothing for the remaining countries and none of the ban messages (lines 69-73).
