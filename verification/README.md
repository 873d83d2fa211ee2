# ambiguity — the statement library and its pull planning, in Dafny

`ambiguity` keeps, for each financial account, a local library of monthly
statements in several file formats. It works out which (period, format)
pairs are missing and drives a browser through each bank's site to fetch
them. This project models the deterministic core of that program and proves
what it promises:

- **Periods** (`StatementDates`): the year-month value, its scalar `ym`, the
  conversions to and from dates, the scalar and the `YYYY-MM` form, and
  order and equality by `ym`.
- **The library** (`Library`): the directory scan that rebuilds the index,
  the canonical file name, filing a statement, and the ignore map.
- **Reconciliation** (`Accounts`):
  - account construction;
  - the expected periods from opening to "today", under the statement-day
    rule;
  - the missing formats of each period;
  - the guard and the order of steps of a pull session.
- **The driver** (`Scd`): the idempotent `start`/`quit`, the window loop of
  `reset`, `find`, and the page loop of `print_to_pdf`.
- **Per-bank planning**:
  - `Boa` covers Bank of America checking and Visa. `MitfcuVisa`, `UsbankVisa`
    and `Mitfcu` cover the other banks.
  - Each `do_pull` splits the requests into PDF periods and auxiliary
    formats.
  - It reads what the site lists, and decides for each requested
    (period, format) whether it is logged as failed or filed, and from where.
  - The shared pieces live in `Requests`: the partition, the generic request
    loops, and the event log.

The browser is replaced by data:
- the texts and hrefs of the links a page shows;
- the option texts of a dropdown;
- the labels of a menu;
- the pages a paginated list shows in turn;
- the set of (period, format) clicks that reload the page.

`strptime` is a parameter `DateParser` that returns a parsed date or nothing.
"Today" and the directory listing are parameters too. A session is a
`PullRun`:
- its log holds, in order, the `log_failed_pull` and
  `log_successful_pull` calls made: `Failed`, or `Pulled` together with how
  the file was obtained. This is one event per request handled, with one
  exception. When a BoA format click reloads the page, the formats of that
  period downloaded so far are logged again as placeholders
  (`ambiguity/account/boa.py:104-110`), and each placeholder's filing
  replaces the downloaded file (`ambiguity/account/account.py:62`);
- an optional error says which exception ended it.

A Python `set` is iterated in an order the language leaves open. A `dict` is
iterated in insertion order (Python 3.7 and later), so the `statements` dict
is walked in the order `gen_statement_dates` produced its periods. The model
deliberately lets every such loop pick its next element arbitrarily and
proves each contract for every order. This over-approximates the dict loops:
what holds for all orders holds for insertion order in particular.

Two behaviours of the code shape the model:
- **Failures can abort a session.** The drivers' only handlers are local:
  - the US Bank login wait (`ambiguity/account/usbank_visa.py:48-50`);
  - the US Bank candidate parse (`ambiguity/account/usbank_visa.py:117-120`);
  - the MITFCU navigation click (`ambiguity/account/mitfcu.py:61-63`).

  The call in `ambiguity/account/account.py:115` has none. So these
  exceptions end the whole `do_pull`, and the model reports them as the
  run's `abort`:
  - an unreadable date in a listing (`ambiguity/account/boa.py:80-86`,
    `ambiguity/account/mitfcu_visa.py:74-79`);
  - a missing " - " in a MITFCU Visa choice
    (`ambiguity/account/mitfcu_visa.py:95-99`);
  - a US Bank menu with too few items
    (`ambiguity/account/usbank_visa.py:87-104`);
  - an invalid US Bank download window
    (`ambiguity/account/usbank_visa.py:68-71`).

  The model assumes every download, print and filing succeeds. The
  exceptions these can raise are listed under "Left out".
- **Timed-out page files are kept.** The page loop of `print_to_pdf`
  deletes only the terminal small page (`ambiguity/scd.py:152-153`), and
  the kept pages only while merging them (`ambiguity/scd.py:158-160`). A
  timeout inside the loop leaves the pages kept so far on disk.
  `Scd.Paginate` returns `TimeoutError` and says nothing about files in
  that case.

## Model

| member | source | states |
|---|---|---|
| StatementDates.FromYm | ambiguity/statement_date.py:24-32 | `from_ym` inverts `ym` for every integer, and the month it builds is always in 1..12 |
| StatementDates.FromYmOfYm | ambiguity/statement_date.py:9-32 | for a month in 1..12, `from_ym(StatementDate(y, m).ym)` has exactly the fields (y, m) |
| StatementDates.OrderByYm | ambiguity/statement_date.py:40-50 | `<` is a strict total order, `==` excludes `<` both ways, and equal periods hash alike, all through `ym` |
| StatementDates.UnnormalisedEqualsTwin | ambiguity/statement_date.py:40-41 | (y, m+12) compares equal to (y+1, m), although the fields differ |
| StatementDates.SameIsEqualForValidMonths | ambiguity/statement_date.py:40-44 | for months in 1..12, `__eq__` is equality of the fields |
| StatementDates.FromDateDiscardsDay | ambiguity/statement_date.py:19-22 | `from_datetime` keeps year and month, and two dates in the same month give the same period |
| StatementDates.ToDatetime | ambiguity/statement_date.py:34-35 | `to_datetime(day)` succeeds exactly for a real calendar date, whose period is the original one; otherwise ValueError |
| StatementDates.FromIso | ambiguity/statement_date.py:9-17 | `from_iso` raises IndexError exactly when there are fewer than two "-" fields, and ValueError exactly when `int()` rejects the first or second field; otherwise year and month are `int()` of those fields, which strips surrounding whitespace and accepts underscore grouping |
| StatementDates.IsoShape | ambiguity/statement_date.py:37-38 | `repr` is the year, "-", then two month digits |
| StatementDates.IsoRoundTrip | ambiguity/statement_date.py:13-38 | for a non-negative year and a month in 1..12, `from_iso(repr(p)) == p` |
| Text.ParseIntIgnoresPadding | ambiguity/statement_date.py:10-11 | `int()` of a field is unchanged by a whitespace character that `int()` skips on either side: ASCII tab to carriage return, space, and the non-ASCII `str.isspace` characters |
| Text.ParseIntRejectsSeparatorControl | ambiguity/statement_date.py:10-11 | a leading separator control U+001C..U+001F makes `int()` raise ValueError, although `str.strip()` would remove it |
| Text.ParseIntIgnoresUnderscore | ambiguity/statement_date.py:10-11 | `int()` accepts an underscore between two digit runs, and the value is that of the digits alone |
| Text.ParseIntOfIntToString | ambiguity/statement_date.py:10-11 | `int(str(n)) == n` for every integer, negative ones included |
| Library.MatchName | ambiguity/account/account.py:46-53 | a match starts with the account name and has at least ten more characters; a 4-digit year; a 2-digit month that is not range-checked; a non-empty run of word characters as format |
| Library.BuildLibrary | ambiguity/account/account.py:42-54 | after the scan, (period, fmt) is indexed iff a directory `fmt` holds a file whose name the pattern maps to that period and to `fmt`; plain files are skipped; no indexed set is empty |
| Library.FileNameRoundTrip | ambiguity/account/account.py:46-61 | the pattern reads back exactly (period, fmt) from the name `file_statement` builds, for a 4-digit year and a month in 1..12 |
| Library.FileNameHitsOnlyItsPeriod | ambiguity/account/account.py:46-61 | a filed name registers its own period and no other |
| Library.FileStatement | ambiguity/account/account.py:56-63 | filing adds `fmt` to its period and leaves every other period alone; `has_statement` holds afterwards; the file lands in directory `fmt`, created if absent; a plain file of that name raises FileExistsError |
| Library.FileKeepsIndexInSync | ambiguity/account/account.py:56-63 | when the index agreed with a scan, it still does after filing: a fresh scan finds exactly the old pairs plus the filed one |
| Library.BuildIgnore | ambiguity/account/account.py:31-38 | the ignore map is built iff every date string is accepted by `from_iso`; otherwise the error is the one `from_iso` raises on the first rejected entry, IndexError or ValueError |
| Library.BuildIgnoreContents | ambiguity/account/account.py:31-38 | the keys are the periods of the entries; a key takes its last entry's formats, and a None list stands for all of PULL_FMTS |
| Accounts.NewAccount | ambiguity/account/account.py:22-40 | statement_day defaults to 1, active to True and cred_name to the name; the index agrees with a scan of the library directory; a falsy ignore gives an empty map, and a bad ignore date aborts construction with the first bad entry's error |
| Accounts.GenStatementDates | ambiguity/account/account.py:69-78 | one well-formed period per month of the window `[open.ym + 1 - (open.day < sday), today.ym + (today.day > sday))`, in order |
| Accounts.GeneratedWindow | ambiguity/account/account.py:69-78 | the periods strictly increase one month at a time; a period is generated iff it lies in the window; nothing is generated iff the bounds cross |
| Accounts.StatementDayBoundaries | ambiguity/account/account.py:73-76 | the opening month is included iff the opening day is before the statement day, and today's month iff today is after it; a day equal to the statement day excludes its month at both ends |
| Accounts.MissingStatements | ambiguity/account/account.py:80-90 | inactive gives an empty map; otherwise a format is listed for a period iff the period is expected and the format is pulled, absent from the library and not ignored; no listed set is empty |
| Accounts.PullSteps | ambiguity/account/account.py:105-115 | a session does nothing iff the account is inactive, or there are no statements and no current pull; otherwise it ends with `do_pull` of exactly those statements |
| Accounts.PullPreparesDriver | ambiguity/account/account.py:105-115 | the credential is fetched before the driver is touched; `do_pull` gets an active driver with one window on a new tab and no cookies; a browser is launched only if none ran; a session that does nothing leaves the driver unchanged |
| Accounts.PullMissing | ambiguity/account/account.py:92-99 | a session over the missing statements, run iff the account is active and something is missing |
| Accounts.PullCurrent | ambiguity/account/account.py:101-103 | a current-activity session with no statements, run iff the account is active |
| Scd.Start | ambiguity/scd.py:31-35 | `start` builds a browser only when inactive, and the driver is active afterwards |
| Scd.Quit | ambiguity/scd.py:37-41 | `quit` tears down only when active, and the driver is inactive afterwards |
| Scd.StartQuitIdempotent | ambiguity/scd.py:31-41 | a second `start` or `quit` changes nothing; starting twice launches at most once |
| Scd.CloseExtraWindows | ambiguity/scd.py:173-175 | the reset loop closes all windows but the first, last window first |
| Scd.Reset | ambiguity/scd.py:171-178 | `reset` leaves exactly the first window, focused on a new tab, with no cookies; with no window at all, indexing `window_handles[0]` raises IndexError |
| Scd.ResetClosesAllButFirst | ambiguity/scd.py:171-178 | the closed windows are exactly the others, each once, and a second reset closes nothing |
| Scd.Find | ambiguity/scd.py:49-55 | `find(selector, idx)` is element `idx` of the matches, counting from the end for a negative index; out of range raises IndexError |
| Scd.FindFromEnd | ambiguity/scd.py:49-51 | a negative index counts from the end: `find(sel, -1 - i)` is element i of the matches in reverse order, and both raise IndexError together |
| Scd.PaginateFrom | ambiguity/scd.py:143-154 | from any loop state, the loop requests page i on its i-th turn and keeps `page{i}.pdf` iff the page is over 2000 bytes; it stops at the first small page, which it discards; with no small page it times out |
| Scd.Paginate | ambiguity/scd.py:143-154 | the kept pages are the longest prefix of pages over 2000 bytes, numbered in request order, and the first small page ends the loop |
| Scd.PagesDistinct | ambiguity/scd.py:148-151 | no page file is kept twice |
| Scd.MergeOps | ambiguity/scd.py:157-160 | each kept page is appended and then deleted, in kept order |
| Scd.MergePreservesOrder | ambiguity/scd.py:157-160 | the merged document is the kept pages in order, and every deletion directly follows the append of the same file |
| Requests.Partition | ambiguity/account/boa.py:64-70 | a period enters the PDF set iff it asks for "pdf", and the auxiliary map iff `AUX & fmts` is non-empty, with that value (the same loop appears in all three banks that split) |
| Requests.PartitionCovers | ambiguity/account/mitfcu_visa.py:64-70 | when every request is PDF or auxiliary, the two halves together hold exactly the requests, and no auxiliary value holds "pdf" |
| Requests.FailAll | ambiguity/account/boa.py:92-95 | an unlisted period logs each of its formats as failed, once, and nothing else |
| Requests.ForEachRequest | ambiguity/account/mitfcu.py:93-95 | the nested `for sd, fmts` / `for fmt` loop decides every requested pair exactly once and records nothing unrequested, in any iteration order |
| Requests.ListedLoop | ambiguity/account/mitfcu_visa.py:81-89 | a request fails iff its period is not listed; otherwise it is filed from its period's source; one event per request |
| Requests.SlashPeriod | ambiguity/account/mitfcu_visa.py:76-78 | "mm/dd/yyyy" gives `StatementDate(yyyy, mm)` through `int()`, which strips whitespace around a field and accepts underscore grouping; a text without exactly three fields, or with a field `int()` rejects, raises ValueError |
| Requests.SlashPeriodOfDate | ambiguity/account/mitfcu.py:86-87 | any two-digit/two-digit/four-digit text reads back as the period of its year and month digits |
| Boa.FormatTables | ambiguity/account/boa.py:13-40 | for both variants, the auxiliary formats are the pulled ones minus "pdf" and each has a selector; the Visa variant pulls the checking formats minus "txt" |
| Boa.SelectAccount | ambiguity/account/boa.py:57-62 | the first name link whose last four characters match is chosen; none matching raises ValueError |
| Boa.OptionFormat | ambiguity/account/boa.py:80-85 | "Period ending" options are read as mm/dd/yyyy, every other option as "Month dd, yyyy" |
| Boa.OptionDateText | ambiguity/account/boa.py:80-85 | a "Period ending" option is read from the last 10 characters of the stripped text, any other from the whole stripped text |
| Boa.OptionPeriod | ambiguity/account/boa.py:80-86 | an option's period is that of the parsed date, with the day discarded; an unparseable date raises ValueError |
| Boa.DetectAux | ambiguity/account/boa.py:73-88 | the scan succeeds iff every option after the first parses; otherwise ValueError |
| Boa.DetectAuxKeys | ambiguity/account/boa.py:77-88 | the listed periods are exactly those of the options after the first |
| Boa.DetectAuxValues | ambiguity/account/boa.py:77-88 | every listed period maps to an option that denotes it |
| Boa.DetectAuxSkipsFirst | ambiguity/account/boa.py:78 | the first option never affects the result |
| Boa.Placeholders | ambiguity/account/boa.py:106-110 | a stale page files every format of the period as an empty placeholder |
| Boa.Downloads | ambiguity/account/boa.py:100-118 | every download is of a requested format through its own selector, from a click that did not reload the page; a stop before the end means some click reloaded it, and without a stop every format is downloaded |
| Boa.StaleFiling | ambiguity/account/boa.py:104-110 | after a reload, the downloads so far are followed by a placeholder for every format of the period, and by nothing else |
| Boa.AuxPeriod | ambiguity/account/boa.py:100-118 | a period that goes stale files every format as a placeholder; otherwise each is downloaded through its own selector; a download only happens for a format whose click did not reload the page; the log is some downloads followed by some placeholders, so a stale click logs a downloaded format again as a placeholder |
| Boa.AuxLoop | ambiguity/account/boa.py:91-118 | an auxiliary request fails iff its period is not listed; every request of a listed period is filed by download or placeholder; nothing is printed or unrequested |
| Boa.DoPull | ambiguity/account/boa.py:47-148 | the run aborts with ValueError iff no account matches, or auxiliary formats are wanted and the dropdown cannot be read; otherwise the auxiliary outcome holds, and the PDF branch files nothing |
| MitfcuVisa.FormatTables | ambiguity/account/mitfcu_visa.py:13-29 | the auxiliary formats are the pulled ones minus "pdf"; each has a download URL, and xlsx asks for `?m=excel` |
| MitfcuVisa.Script | ambiguity/account/mitfcu_visa.py:79 | the script is the href without its first 11 characters, and empty when the href is shorter |
| MitfcuVisa.PdfEntry | ambiguity/account/mitfcu_visa.py:76-79 | a PDF link maps its mm/dd/yyyy text to a period and its href to a script |
| MitfcuVisa.PdfListing | ambiguity/account/mitfcu_visa.py:74-79 | the PDF listing is read iff every link text is mm/dd/yyyy, and then lists exactly those periods |
| MitfcuVisa.ChoiceEntry | ambiguity/account/mitfcu_visa.py:95-99 | a choice's date is its second " - " field; without one IndexError, and an unparseable date ValueError |
| MitfcuVisa.ChoiceListing | ambiguity/account/mitfcu_visa.py:93-99 | the choice listing is read iff every choice is, and then lists exactly their periods; otherwise it raises the first failing choice's error, IndexError or ValueError |
| MitfcuVisa.PdfPhase | ambiguity/account/mitfcu_visa.py:72-89 | with PDF requests, an unreadable listing aborts; otherwise an unlisted period fails and a listed one is filed once through its script |
| MitfcuVisa.AuxPhase | ambiguity/account/mitfcu_visa.py:91-116 | with auxiliary requests, an unreadable choice listing aborts with the first failing choice's error; otherwise an unlisted period fails for every format, and a listed one downloads each format from its URL |
| MitfcuVisa.DoPull | ambiguity/account/mitfcu_visa.py:48-119 | a PDF abort skips the auxiliary phase; an auxiliary abort keeps the PDF events; each phase's outcome holds for its own events |
| UsbankVisa.DownloadWindow | ambiguity/account/usbank_visa.py:68-71 | the window ends on the statement day of the period's month and starts the day after the statement day of the previous month; impossible dates raise ValueError, and January of year 1 overflows |
| UsbankVisa.WindowsTile | ambiguity/account/usbank_visa.py:68-71 | consecutive windows meet: each starts the day after the previous one ends |
| UsbankVisa.NoWindowForDay31 | ambiguity/account/usbank_visa.py:68-71 | a statement day of 31 has no window in any month |
| UsbankVisa.ChooseItem | ambiguity/account/usbank_visa.py:87-104 | csv, qfx and qif use menu items 1, 2 and 3, whose labels must contain CSV, QFX and QIF; a mismatch or another format fails; a short menu raises IndexError |
| UsbankVisa.MenuTable | ambiguity/account/usbank_visa.py:87-101 | exactly the auxiliary formats have a menu item, each a different one, never the first |
| UsbankVisa.AuxPeriod | ambiguity/account/usbank_visa.py:83-108 | for one period, each format is downloaded through its menu item or logged as failed, unless a short menu raises IndexError |
| UsbankVisa.AuxPhase | ambiguity/account/usbank_visa.py:64-109 | the loop as evidently intended (see Findings): it raises iff some period has no window or some format indexes past the menu; otherwise each request's outcome is the menu decision |
| UsbankVisa.AuxPhaseAsWritten | ambiguity/account/usbank_visa.py:64-75 | as written, any auxiliary request ends the session with nothing recorded: a bad window of the first period visited raises its error, and otherwise `fill_field_slow` raises AttributeError |
| UsbankVisa.AsWrittenAuxAborts | ambiguity/account/usbank_visa.py:64-104 | a CSV request for January 2000 with statement day 15 and a menu offering CSV has a window and a menu item, so the corrected loop raises nothing where the loop as written aborts |
| UsbankVisa.Candidate | ambiguity/account/usbank_visa.py:117-124 | a link is a candidate iff its text parses as "Month dd, yyyy" with a day within 2 of the statement day |
| UsbankVisa.Candidates | ambiguity/account/usbank_visa.py:115-124 | the candidate map has exactly the candidates' periods, each mapped to a link of that period |
| UsbankVisa.PdfPhaseAsWritten | ambiguity/account/usbank_visa.py:125-133 | the loop as written files every candidate, requested or not, and never logs a failure |
| UsbankVisa.AsWrittenFilesUnrequested | ambiguity/account/usbank_visa.py:125-133 | with January 2000 requested and only February 2000 offered, the loop as written files February and reports nothing for January; the corrected loop reports January as failed |
| UsbankVisa.PdfPhase | ambiguity/account/usbank_visa.py:125-128 | the corrected loop runs over the requested periods: a period without a candidate fails, any other downloads its link once |
| UsbankVisa.DoPull | ambiguity/account/usbank_visa.py:41-136 | with both loops as evidently intended (see Findings): the auxiliary phase runs first and an exception ends the session before any PDF; otherwise both outcomes hold on their own events |
| UsbankVisa.DoPullAsWritten | ambiguity/account/usbank_visa.py:56-133 | as written, any auxiliary request ends the session with nothing recorded; without one, the PDF loop as written files every candidate and logs no failure |
| Mitfcu.UrlsCarryDocId | ambiguity/account/mitfcu.py:13-30 | the CSV URL carries the docid right after its fixed head; the print URL carries it there and again as PrimaryKey |
| Mitfcu.UrlsDistinguishDocuments | ambiguity/account/mitfcu.py:100-109 | with the same sub-account and description, two CSV URLs (and two print URLs) are equal iff the docids are, whatever their lengths |
| Mitfcu.DocId | ambiguity/account/mitfcu.py:88 | the docid is `href[-8:-1]`: the seven characters before the last one, and never longer than seven |
| Mitfcu.HitEntry | ambiguity/account/mitfcu.py:86-88 | a hit maps its mm/dd/yyyy text to a period and its href to a docid; any other text raises ValueError |
| Mitfcu.PageMap | ambiguity/account/mitfcu.py:84-88 | waiting for a hit times out exactly on an empty page; any other failure is ValueError |
| Mitfcu.PageMapContents | ambiguity/account/mitfcu.py:84-88 | a page is read iff it has hits and every hit text is mm/dd/yyyy, and then lists exactly their periods |
| Mitfcu.HitlistFrom | ambiguity/account/mitfcu.py:82-91 | the hitlist loop ends after at least one more pass and never runs past the page that repeats |
| Mitfcu.HitlistFromStops | ambiguity/account/mitfcu.py:80-91 | the loop stops at the first pass that raises or adds no period, and every earlier pass added one |
| Mitfcu.Hitlist | ambiguity/account/mitfcu.py:80-91 | with no pages it times out; otherwise the dict is what the passes up to the first one without growth accumulate, later hits overwriting earlier docids |
| Mitfcu.KnownGrowsMonotonically | ambiguity/account/mitfcu.py:85-88 | the known periods only grow from pass to pass |
| Mitfcu.Decide | ambiguity/account/mitfcu.py:95-114 | a request fails iff its period has no docid or the format is neither csv nor pdf |
| Mitfcu.Outcomes | ambiguity/account/mitfcu.py:93-116 | an unknown period fails; csv is downloaded from the CSV URL and pdf printed from the print URL, both with that period's docid; any other format fails; one event per request |
| Mitfcu.DoPull | ambiguity/account/mitfcu.py:51-119 | with the alert accepted as evidently intended (see Findings): a failing hitlist aborts before any request; otherwise every request gets its outcome from the docids read |
| Mitfcu.DoPullAsWritten | ambiguity/account/mitfcu.py:51-70 | as written, every pull ends with AttributeError from `accept_alert` and records nothing |
| Mitfcu.OutcomeCoversRequests | ambiguity/account/mitfcu.py:93-116 | with a readable hitlist the corrected pull records an event for every requested format, so it differs from the pull as written whenever something is requested |

## Left out

- Selenium itself is not modelled: logins, waits, clicks, frames, `execute_script`, `sleep`, the `input()` prompts and the `pdb.set_trace()` breakpoints. Listings and menus are data, and the BoA PDF branch, which stops at a breakpoint, files nothing.
- The SIGALRM-based `Timeout` of `ambiguity/utils.py` is not modelled. A wait that never ends is an abstract `TimeoutError`, as in `Scd.Paginate` and `Mitfcu.PageMap`.
- Filesystem effects are not modelled: `mkdir` of the library root, `rename`, `glob`, `unlink`, `touch` and the bytes of the files. The library directory is a map from directory names to file sets, and filing records only the name and the index.
- PyPDF2 merging is not modelled: the merged document is the sequence of appended page names.
- `strptime` is the `DateParser` parameter, and `datetime.date.today()` is the `today` parameter. `int()`, `str()` and `str.strip()` are modelled in `Text`, because file names, ISO strings and hit texts go through them. `str.strip()` removes exactly what `str.isspace` accepts. `int()` skips the same characters except the separator controls U+001C..U+001F. Only the ASCII digits 0-9 are digits: `int()` also reads other Unicode decimal digits, and the model rejects them.
- Accounts.GenStatementDates: the source reads `datetime.date.today()` twice (`ambiguity/account/account.py:72` and `:74`), and the model takes one `today` for both. Across midnight at a month's end the source can combine one day's month with the next day's day; the model cannot. `Accounts.MissingStatements` and `Accounts.PullMissing` inherit this single reading.
- The account name is assumed free of regex metacharacters, and `\w` matches ASCII word characters only.
- Logging is not modelled. The events of a `PullRun` record what `log_failed_pull` and `log_successful_pull` would report.
- The credential providers are not modelled; `pull` only records that the credential is fetched first. `command_line.py`, `account_manager.py` and `setup.py` are not part of this model.
- `Account.factory` is not modelled. `USBankVisa` is not exported from `ambiguity/account/__init__.py:1-5`, so `factory("USBankVisa")` (`ambiguity/account/account.py:142-143`) would fail on the attribute lookup. That is configuration plumbing outside the core.
- `pull_current` mechanics and each bank's logout are not modelled: no bank does anything with the current-activity flag, and logout is navigation only.
- Boa.DoPull, MitfcuVisa.DoPull, UsbankVisa.DoPull, Mitfcu.DoPull: every download, print and filing is assumed to succeed. Each of these can raise, and any raise would end the session after the events logged so far:
  - `wait_for_download` raises its `Timeout` error when no file appears (`ambiguity/scd.py:102-107`). It is called at `ambiguity/account/boa.py:116`, `ambiguity/account/usbank_visa.py:106` and `:131`, and `ambiguity/account/mitfcu.py:104`.
  - `print_to_pdf` raises `RuntimeError` or a timeout (`ambiguity/scd.py:127`, `:133`, `:147`). It is reached from `ambiguity/account/mitfcu.py:111`.
  - `file_statement`'s `mkdir` raises `FileExistsError` when the format's path exists and is not a directory (`ambiguity/account/account.py:60`).

  The iff-abort contracts of these four members are therefore complete only for the failures modelled above.
- Boa.AuxPeriod: after a stale page the source re-reads the dropdown, and the model assumes the re-read lists the same periods. It also treats "goes stale" as a fixed set of (period, format) clicks rather than the live page.
- Boa.DoPull: the while-not-displayed wait before clicking an option is not modelled. A wait that never ends would raise TimeoutError.
- MitfcuVisa.DoPull: the overlay wait after selecting a statement is not modelled, and neither is its possible TimeoutError.
- Mitfcu.Hitlist: the pages the hitlist frame shows in turn are an input sequence, and the last page is taken to repeat. The loop can always end, which the live site does not guarantee.
- UsbankVisa.DownloadWindow: dates are proleptic Gregorian with years 1..9999 as in Python `datetime`. The `OverflowError` for January of year 1 stands for Python's "date value out of range" when subtracting a day.

## Findings

| source | as written | input that shows it | evidently intended | confidence | as-written member | corrected member |
|---|---|---|---|---|---|---|
| ambiguity/account/usbank_visa.py:125-128 | the PDF loop runs `for sd in pdf_stmts`, over the candidates found on the page, and tests `sd not in pdf_stmts`, which never holds | PDF requested for January 2000 only; the page offers a February 2000 statement | loop over the requested periods (`pdf_statements`): January is logged as failed and February is not filed | high (not executed) | UsbankVisa.PdfPhaseAsWritten | UsbankVisa.PdfPhase |
| ambiguity/account/usbank_visa.py:74-75 | the auxiliary loop fills the date fields with `scd.fill_field_slow`, which neither `SimpleChromeDriver` (`ambiguity/scd.py:17-178`) nor Selenium's Chrome driver defines | a CSV request for January 2000 with statement day 15 and a menu offering CSV | fill the fields with the driver's `fill_field` and go on to the format menu | high (not executed) | UsbankVisa.AuxPhaseAsWritten | UsbankVisa.AuxPhase |
| ambiguity/account/mitfcu.py:70 | `do_pull` calls `scd.accept_alert()`, which neither `SimpleChromeDriver` (`ambiguity/scd.py:17-178`) nor Selenium's Chrome driver defines | any pull, for example a CSV request for a period the hitlist lists | accept the alert and go on to read the hitlist | high (not executed) | Mitfcu.DoPullAsWritten | Mitfcu.DoPull |
