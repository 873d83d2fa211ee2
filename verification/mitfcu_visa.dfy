/** MITFCU Visa (`MITFCUVisa`): the e-statement listing of PDFs, the
    statement-date choices of the transactions page, and the outcome of
    every requested PDF and auxiliary format.

    The site is data: the PDF links of the e-statement page and the
    statement-choice links of the date picker, each with its text and href.
 */
module MitfcuVisa {
  import opened Base
  import opened Text
  import opened StatementDates
  import opened Library
  import opened Requests

  const PULL_FMTS: set<string> := {"pdf", "csv", "xlsx", "qfx", "ofx"}
  const AUX_FMTS: set<string> := {"csv", "xlsx", "qfx", "ofx"}

  const BASE_DL_URL: string := "https://mitfcu.mycardinfo.com/downloadtransactions.ashx"

  /** The download URL of each auxiliary format for the selected period. */
  const DL_URLS: map<string, string> := map[
    "xlsx" := BASE_DL_URL + "?m=excel",
    "csv" := BASE_DL_URL + "?m=csv",
    "qfx" := BASE_DL_URL + "?m=qfx",
    "ofx" := BASE_DL_URL + "?m=ofx"]

  /** The auxiliary formats are the pulled ones other than PDF; each has a
      download URL, the format's own name as the `m` parameter except that
      xlsx asks for "excel". */
  lemma FormatTables()
    ensures AUX_FMTS == PULL_FMTS - {"pdf"}
    ensures DL_URLS.Keys == AUX_FMTS
    ensures DL_URLS["xlsx"] == BASE_DL_URL + "?m=excel"
    ensures forall f :: f in AUX_FMTS && f != "xlsx" ==> DL_URLS[f] == BASE_DL_URL + "?m=" + f
  {
  }

  /** The JavaScript behind a link: `href[11:]`, which drops the
      "javascript:" prefix. */
  function Script(href: string): (s: string)
    ensures |href| >= 11 ==> s == href[11..] && href == href[..11] + s
    ensures |href| <= 11 ==> s == []
  {
    PySlice(href, 11, |href|)
  }

  // ---------------------------------------------------------------------
  // The listings
  // ---------------------------------------------------------------------

  /** A PDF link: its `mm/dd/yyyy` text gives the period, its href the
      script that downloads it. */
  function PdfEntry(l: Link): (r: Result<(int, string)>)
    ensures r.Ok? <==> SlashPeriod(l.text).Ok?
    ensures r.Ok? ==> r.value == (SlashPeriod(l.text).value.Ym(), Script(l.href))
    ensures r.Err? ==> r.error == ValueError
  {
    match SlashPeriod(l.text)
    case Err(e) => Err(e)
    case Ok(p) => Ok((p.Ym(), Script(l.href)))
  }

  /** `pdfjs`: the period of each PDF link mapped to its script, a later link
      for a period replacing an earlier one; one unreadable text aborts. */
  function PdfListing(links: seq<Link>): (r: Result<map<int, string>>)
    ensures r.Ok? <==> forall i :: 0 <= i < |links| ==> SlashPeriod(links[i].text).Ok?
    ensures r.Err? ==> r.error == ValueError
    ensures r.Ok? ==> forall k :: k in r.value <==> exists i :: 0 <= i < |links| && SlashPeriod(links[i].text).value.Ym() == k
  {
    var r := IndexAll(links, PdfEntry);
    assert r.Err? ==> exists i :: 0 <= i < |links| && PdfEntry(links[i]) == Err(r.error);
    r
  }

  /** A statement choice reads "<something> - <Mon dd, yyyy>": the field
      after the first " - " is parsed (a text without one raises IndexError,
      a bad date ValueError); the href gives the script selecting it. */
  function ChoiceEntry(parse: DateParser, l: Link): (r: Result<(int, string)>)
    ensures var fields := SplitOn(l.text, " - ");
      && (r == Err(IndexError) <==> |fields| < 2)
      && (r.Ok? <==> |fields| >= 2 && parse(fields[1], ShortMonthDate).Some?)
      && (r.Ok? ==> r.value == (FromDate(parse(fields[1], ShortMonthDate).value).Ym(), Script(l.href)))
    ensures r.Err? ==> r.error == IndexError || r.error == ValueError
  {
    var fields := SplitOn(l.text, " - ");
    if |fields| < 2 then Err(IndexError)
    else
      match parse(fields[1], ShortMonthDate)
      case None => Err(ValueError)
      case Some(d) => Ok((FromDate(d).Ym(), Script(l.href)))
  }

  /** `docjs`: the period of each statement choice mapped to its script. */
  function ChoiceListing(links: seq<Link>, parse: DateParser): (r: Result<map<int, string>>)
    ensures r.Ok? <==> forall i :: 0 <= i < |links| ==> ChoiceEntry(parse, links[i]).Ok?
    ensures r.Err? ==> exists i :: 0 <= i < |links| && ChoiceEntry(parse, links[i]) == Err(r.error)
                         && forall j :: 0 <= j < i ==> ChoiceEntry(parse, links[j]).Ok?
    ensures r.Ok? ==> forall k :: k in r.value <==> exists i :: 0 <= i < |links| && ChoiceEntry(parse, links[i]).value.0 == k
  {
    IndexAll(links, (l: Link) => ChoiceEntry(parse, l))
  }

  // ---------------------------------------------------------------------
  // do_pull
  // ---------------------------------------------------------------------

  /** How a filed PDF was fetched: the listing's script for its period. */
  function PdfSource(pdfjs: map<int, string>): (int, string) -> Source {
    (k: int, f: string) => Download(if k in pdfjs then pdfjs[k] else "")
  }

  /** How a filed auxiliary format was fetched: its download URL. */
  function AuxSource(k: int, f: string): Source {
    Download(if f in DL_URLS then DL_URLS[f] else "")
  }

  /** The periods a listing offers; none when it cannot be read. */
  function Offered(listing: Result<map<int, string>>): set<int> {
    if listing.Ok? then listing.value.Keys else {}
  }

  /** The scripts of the PDF listing; none when it cannot be read. */
  function Scripts(listing: Result<map<int, string>>): map<int, string> {
    if listing.Ok? then listing.value else map[]
  }

  /** The PDF half of `do_pull`: with PDF requests, the e-statement list is
      read (an unreadable date aborts with ValueError) and each requested
      period either fails or downloads its PDF through the listing's
      script, exactly once. */
  method PdfPhase(pdfs: set<int>, pdfLinks: seq<Link>) returns (log: seq<Event>, abort: Option<Error>)
    ensures abort.Some? <==> pdfs != {} && PdfListing(pdfLinks).Err?
    ensures abort.Some? ==> log == [] && abort == Some(ValueError)
    ensures abort.None? ==> var pdfjs := Scripts(PdfListing(pdfLinks));
      ListedOutcome(PdfOnly(pdfs), pdfjs.Keys, PdfSource(pdfjs), log) && OneEventPerRequest(log)
    ensures forall e :: e in log ==> e.fmt == "pdf" && e.ym in pdfs
  {
    if pdfs == {} {
      assert PdfOnly(pdfs) == map[];
      return [], None;
    }
    var listing := PdfListing(pdfLinks);
    if listing.Err? {
      return [], Some(listing.error);
    }
    log := ListedLoop(PdfOnly(pdfs), listing.value.Keys, PdfSource(listing.value));
    abort := None;
  }

  /** The auxiliary half of `do_pull`: with auxiliary requests, the
      statement choices are read (an unreadable choice aborts with its
      error) and each auxiliary period either fails for every format or
      downloads each format from its URL. */
  method AuxPhase(aux: Lib, choices: seq<Link>, parse: DateParser) returns (log: seq<Event>, abort: Option<Error>)
    ensures abort.Some? <==> aux != map[] && ChoiceListing(choices, parse).Err?
    ensures abort.Some? ==> log == [] && abort == Some(ChoiceListing(choices, parse).error)
    ensures abort.None? ==>
      ListedOutcome(aux, Offered(ChoiceListing(choices, parse)), AuxSource, log) && OneEventPerRequest(log)
  {
    if aux == map[] {
      return [], None;
    }
    var listing := ChoiceListing(choices, parse);
    if listing.Err? {
      return [], Some(listing.error);
    }
    log := ListedLoop(aux, listing.value.Keys, AuxSource);
    abort := None;
  }

  /** `do_pull` after login: the PDF phase, then the auxiliary phase. An
      abort in the PDF phase skips the auxiliary one; an abort in the
      auxiliary phase keeps the PDF events. */
  method DoPull(statements: Lib, pdfLinks: seq<Link>, choices: seq<Link>, parse: DateParser)
    returns (run: PullRun)
    ensures var pdfs, aux := PdfRequests(statements), AuxRequests(statements, AUX_FMTS);
      run.abort.Some? <==>
        (pdfs != {} && PdfListing(pdfLinks).Err?) || (aux != map[] && ChoiceListing(choices, parse).Err?)
    ensures PdfRequests(statements) != {} && PdfListing(pdfLinks).Err? ==> run == PullRun([], Some(ValueError))
    ensures !(PdfRequests(statements) != {} && PdfListing(pdfLinks).Err?) ==>
      var pdfjs := Scripts(PdfListing(pdfLinks));
      ListedOutcome(PdfOnly(PdfRequests(statements)), pdfjs.Keys, PdfSource(pdfjs), EventsFor(run.log, {"pdf"}))
    ensures run.abort.None? ==>
      ListedOutcome(AuxRequests(statements, AUX_FMTS), Offered(ChoiceListing(choices, parse)), AuxSource,
                    EventsFor(run.log, AUX_FMTS))
  {
    var pdfs, aux := Partition(statements, AUX_FMTS);
    var pdfLog, pdfAbort := PdfPhase(pdfs, pdfLinks);
    if pdfAbort.Some? {
      return PullRun([], pdfAbort);
    }
    var auxLog, auxAbort := AuxPhase(aux, choices, parse);
    run := PullRun(pdfLog + auxLog, auxAbort);
    JoinedOutcomes(pdfs, aux, Scripts(PdfListing(pdfLinks)), Offered(ChoiceListing(choices, parse)),
                   pdfLog, auxLog, auxAbort.None?);
  }

  /** Each phase's outcome survives in the joined log, read through its
      own formats: the PDF events are exactly the "pdf" ones, and the
      auxiliary events exactly those of the auxiliary formats. */
  lemma JoinedOutcomes(pdfs: set<int>, aux: Lib, pdfjs: map<int, string>, offered: set<int>,
                       pdfLog: seq<Event>, auxLog: seq<Event>, auxOk: bool)
    requires forall k :: k in aux ==> aux[k] <= AUX_FMTS
    requires forall e :: e in pdfLog ==> e.fmt == "pdf"
    requires ListedOutcome(PdfOnly(pdfs), pdfjs.Keys, PdfSource(pdfjs), pdfLog)
    requires auxOk ==> ListedOutcome(aux, offered, AuxSource, auxLog)
    requires !auxOk ==> auxLog == []
    ensures ListedOutcome(PdfOnly(pdfs), pdfjs.Keys, PdfSource(pdfjs), EventsFor(pdfLog + auxLog, {"pdf"}))
    ensures auxOk ==> ListedOutcome(aux, offered, AuxSource, EventsFor(pdfLog + auxLog, AUX_FMTS))
  {
    assert forall e :: e in auxLog ==> e.fmt in AUX_FMTS && e.fmt !in {"pdf"};
    EventsForSplit(pdfLog, auxLog, {"pdf"}, AUX_FMTS);
    ListedOutcomeSameEvents(PdfOnly(pdfs), pdfjs.Keys, PdfSource(pdfjs), pdfLog, EventsFor(pdfLog + auxLog, {"pdf"}));
    if auxOk {
      ListedOutcomeSameEvents(aux, offered, AuxSource, auxLog, EventsFor(pdfLog + auxLog, AUX_FMTS));
    }
  }
}
