/** US Bank Visa (`USBankVisa`): the transaction-download date window, the
    format-menu decision table, the choice of PDF statement links, and the
    PDF loop, both as the source writes it and as it is evidently meant.

    The site is data: the labels of the format menu (the same on every
    visit) and the texts of the statement links.
 */
module UsbankVisa {
  import opened Base
  import opened Text
  import opened StatementDates
  import opened Library
  import opened Requests

  const PULL_FMTS: set<string> := {"pdf", "csv", "qfx", "qif"}
  const AUX_FMTS: set<string> := {"csv", "qfx", "qif"}

  lemma FormatTables()
    ensures AUX_FMTS == PULL_FMTS - {"pdf"}
  {
  }

  // ---------------------------------------------------------------------
  // The download window
  // ---------------------------------------------------------------------

  datatype Window = Window(start: Date, end: Date)

  /** The window of transactions for period `k`: it ends on the statement
      day of the period's month and starts the day after the statement day
      in the previous month. Each step can fail as Python's `datetime`
      does: an end day the month lacks raises ValueError, stepping back
      from January of year 1 raises OverflowError, and a start day the
      previous month lacks raises ValueError. */
  function DownloadWindow(k: int, sday: int): (r: Result<Window>)
    ensures var p, q := FromYm(k), FromYm(k - 1);
      r.Ok? <==> ValidDate(Date(p.year, p.month, sday)) && k != Period(1, 1).Ym()
                 && ValidDate(Date(q.year, q.month, sday + 1))
    ensures r == Err(OverflowError) <==> ValidDate(Date(FromYm(k).year, FromYm(k).month, sday)) && k == Period(1, 1).Ym()
    ensures r.Err? ==> r.error == ValueError || r.error == OverflowError
    ensures r.Ok? ==> FromDate(r.value.end).Ym() == k && r.value.end.day == sday && ValidDate(r.value.end)
    ensures r.Ok? ==> FromDate(r.value.start).Ym() == k - 1 && r.value.start.day == sday + 1 && ValidDate(r.value.start)
  {
    match ToDatetime(FromYm(k), sday)
    case Err(e) => Err(e)
    case Ok(end) =>
      if k == Period(1, 1).Ym() then Err(OverflowError)
      else
        match ToDatetime(FromYm(k - 1), sday + 1)
        case Err(e) => Err(e)
        case Ok(start) => Ok(Window(start, end))
  }

  /** The windows of consecutive periods tile the calendar: each one starts
      the day after the previous one ends, in the same month. */
  lemma WindowsTile(k: int, sday: int)
    requires DownloadWindow(k - 1, sday).Ok? && DownloadWindow(k, sday).Ok?
    ensures var prev, cur := DownloadWindow(k - 1, sday).value, DownloadWindow(k, sday).value;
      && cur.start.year == prev.end.year && cur.start.month == prev.end.month
      && cur.start.day == prev.end.day + 1
  {
    var prev, cur := DownloadWindow(k - 1, sday).value, DownloadWindow(k, sday).value;
    assert FromDate(cur.start).Ym() == FromDate(prev.end).Ym();
    SameIsEqualForValidMonths(FromDate(cur.start), FromDate(prev.end));
  }

  /** A statement day late in the month has no window in some periods: the
      31st never works, since the previous month must hold day 32. */
  lemma NoWindowForDay31(k: int)
    ensures DownloadWindow(k, 31).Err?
  {
  }

  // ---------------------------------------------------------------------
  // The format menu
  // ---------------------------------------------------------------------

  /** The menu item each format uses and the word its label must contain. */
  function MenuSlot(fmt: string): Option<(nat, string)> {
    if fmt == "csv" then Some((1, "CSV"))
    else if fmt == "qfx" then Some((2, "QFX"))
    else if fmt == "qif" then Some((3, "QIF"))
    else None
  }

  /** The decision for one format: `Ok(Some(i))` clicks menu item `i`,
      `Ok(None)` logs the format as failed, and indexing past the end of the
      menu raises IndexError. */
  function ChooseItem(fmt: string, labels: seq<string>): (r: Result<Option<nat>>)
    ensures MenuSlot(fmt).None? ==> r == Ok(None)
    ensures r.Err? <==> MenuSlot(fmt).Some? && |labels| <= MenuSlot(fmt).value.0
    ensures r.Err? ==> r.error == IndexError
    ensures r.Ok? && r.value.Some? ==>
      MenuSlot(fmt).Some? && r.value.value == MenuSlot(fmt).value.0 && r.value.value < |labels|
      && Contains(labels[r.value.value], MenuSlot(fmt).value.1)
    ensures r == Ok(None) && MenuSlot(fmt).Some? ==> !Contains(labels[MenuSlot(fmt).value.0], MenuSlot(fmt).value.1)
  {
    match MenuSlot(fmt)
    case None => Ok(None)
    case Some((i, word)) =>
      if i >= |labels| then Err(IndexError)
      else if Contains(labels[i], word) then Ok(Some(i))
      else Ok(None)
  }

  /** Exactly the auxiliary formats have a menu slot, the slots are
      distinct, and item 0 (the menu's prompt) is never used. */
  lemma MenuTable()
    ensures forall f :: MenuSlot(f).Some? <==> f in AUX_FMTS
    ensures forall f, g :: MenuSlot(f).Some? && MenuSlot(g).Some? && f != g ==> MenuSlot(f).value.0 != MenuSlot(g).value.0
    ensures forall f :: MenuSlot(f).Some? ==> MenuSlot(f).value.0 >= 1
  {
  }

  // ---------------------------------------------------------------------
  // The auxiliary downloads
  // ---------------------------------------------------------------------

  /** A requested auxiliary download that raises: its period has no window,
      or its format's menu slot is missing. */
  ghost predicate Raises(aux: Lib, sday: int, labels: seq<string>) {
    exists k :: k in aux && (DownloadWindow(k, sday).Err? || exists f :: f in aux[k] && ChooseItem(f, labels).Err?)
  }

  /** What the auxiliary loop records without an exception: a format whose
      menu label does not match fails, any other is downloaded through its
      menu item. */
  ghost predicate MenuOutcome(aux: Lib, labels: seq<string>, log: seq<Event>) {
    && (forall k, f :: Failed(k, f) in log <==> k in aux && f in aux[k] && ChooseItem(f, labels) == Ok(None))
    && (forall k, f :: k in aux && f in aux[k] && ChooseItem(f, labels).Ok? && ChooseItem(f, labels).value.Some? ==>
          Pulled(k, f, Download(labels[ChooseItem(f, labels).value.value])) in log)
  }

  /** Every event is for a requested format whose period has a window, and
      every download went through the format's own menu item. */
  ghost predicate MenuSound(aux: Lib, sday: int, labels: seq<string>, log: seq<Event>) {
    forall e :: e in log ==>
      && e.ym in aux && e.fmt in aux[e.ym] && DownloadWindow(e.ym, sday).Ok?
      && ChooseItem(e.fmt, labels).Ok?
      && (e.Pulled? ==> ChooseItem(e.fmt, labels).value.Some?
                        && e.source == Download(labels[ChooseItem(e.fmt, labels).value.value]))
  }

  /** The formats of one period whose window is valid. */
  method AuxPeriod(k: int, fmts: set<string>, labels: seq<string>) returns (log: seq<Event>, abort: Option<Error>)
    ensures abort.Some? <==> exists f :: f in fmts && ChooseItem(f, labels).Err?
    ensures abort.Some? ==> abort == Some(IndexError)
    ensures forall e :: e in log ==> e.ym == k && e.fmt in fmts && ChooseItem(e.fmt, labels).Ok?
    ensures forall e :: e in log && e.Pulled? ==>
      ChooseItem(e.fmt, labels).value.Some? && e.source == Download(labels[ChooseItem(e.fmt, labels).value.value])
    ensures forall f :: Failed(k, f) in log ==> ChooseItem(f, labels) == Ok(None)
    ensures abort.None? ==> forall f :: f in fmts ==>
      if ChooseItem(f, labels).value.Some? then Pulled(k, f, Download(labels[ChooseItem(f, labels).value.value])) in log
      else Failed(k, f) in log
  {
    log := [];
    var todo := fmts;
    while todo != {}
      invariant todo <= fmts
      invariant forall f :: f in fmts - todo ==> ChooseItem(f, labels).Ok?
      invariant forall e :: e in log ==> e.ym == k && e.fmt in fmts - todo && ChooseItem(e.fmt, labels).Ok?
      invariant forall e :: e in log && e.Pulled? ==>
        ChooseItem(e.fmt, labels).value.Some? && e.source == Download(labels[ChooseItem(e.fmt, labels).value.value])
      invariant forall f :: Failed(k, f) in log ==> ChooseItem(f, labels) == Ok(None)
      invariant forall f :: f in fmts - todo ==>
        if ChooseItem(f, labels).value.Some? then Pulled(k, f, Download(labels[ChooseItem(f, labels).value.value])) in log
        else Failed(k, f) in log
      decreases |todo|
    {
      var f := Choose(todo);
      var choice := ChooseItem(f, labels);
      if choice.Err? {
        return log, Some(choice.error);
      }
      if choice.value.None? {
        log := log + [Failed(k, f)];
      } else {
        log := log + [Pulled(k, f, Download(labels[choice.value.value]))];
      }
      todo := todo - {f};
    }
    abort := None;
  }

  /** The corrected loop over `usbank_aux_statements.items()`, in any
      order (the dict's insertion order is left open), with the date fields
      filled by the driver's `fill_field`: the window is computed first (its error ends the session),
      then each format goes through the menu. */
  method AuxPhase(aux: Lib, sday: int, labels: seq<string>) returns (log: seq<Event>, abort: Option<Error>)
    ensures abort.Some? <==> Raises(aux, sday, labels)
    ensures abort.None? ==> MenuOutcome(aux, labels, log)
    ensures MenuSound(aux, sday, labels, log)
  {
    log := [];
    var todo := aux.Keys;
    while todo != {}
      invariant todo <= aux.Keys
      invariant forall k :: k in aux && k !in todo ==> DownloadWindow(k, sday).Ok?
      invariant forall k, f :: k in aux && k !in todo && f in aux[k] ==> ChooseItem(f, labels).Ok?
      invariant MenuSound(aux, sday, labels, log)
      invariant forall e :: e in log ==> e.ym !in todo
      invariant forall k, f :: Failed(k, f) in log <==> k in aux && k !in todo && f in aux[k] && ChooseItem(f, labels) == Ok(None)
      invariant forall k, f :: k in aux && k !in todo && f in aux[k] && ChooseItem(f, labels).value.Some? ==>
        Pulled(k, f, Download(labels[ChooseItem(f, labels).value.value])) in log
      decreases |todo|
    {
      var k := Choose(todo);
      var window := DownloadWindow(k, sday);
      if window.Err? {
        return log, Some(window.error);
      }
      var events, err := AuxPeriod(k, aux[k], labels);
      log := log + events;
      if err.Some? {
        return log, err;
      }
      todo := todo - {k};
    }
    abort := None;
  }

  /** The auxiliary loop as the source writes it: the first period visited
      computes its window (an error there ends the session) and then calls
      `scd.fill_field_slow`, which the driver does not define, so the
      session ends with AttributeError before any format is tried. */
  method AuxPhaseAsWritten(aux: Lib, sday: int) returns (log: seq<Event>, abort: Option<Error>)
    ensures log == []
    ensures abort.None? <==> aux == map[]
    ensures abort.Some? ==>
      abort == Some(AttributeError) || exists k :: k in aux && DownloadWindow(k, sday) == Err(abort.value)
    ensures aux != map[] && (forall k :: k in aux ==> DownloadWindow(k, sday).Ok?) ==> abort == Some(AttributeError)
  {
    log := [];
    if aux.Keys == {} {
      assert aux == map[];
      return log, None;
    }
    var k := Choose(aux.Keys);
    var window := DownloadWindow(k, sday);
    if window.Err? {
      return log, Some(window.error);
    }
    abort := Some(AttributeError);
  }

  /** The discrepancy on a concrete input: a CSV request for January 2000
      with statement day 15 and a menu offering CSV in item 1. The corrected
      loop raises nothing and downloads it; the loop as written ends the
      session with AttributeError. */
  lemma AsWrittenAuxAborts()
    ensures DownloadWindow(24000, 15).Ok?
    ensures ChooseItem("csv", ["Format", "CSV", "QFX", "QIF"]) == Ok(Some(1))
    ensures !Raises(map[24000 := {"csv"}], 15, ["Format", "CSV", "QFX", "QIF"])
  {
    var labels := ["Format", "CSV", "QFX", "QIF"];
    assert Contains(labels[1], "CSV") by {
      assert labels[1][..3] == "CSV";
    }
    assert FromYm(24000) == Period(2000, 1) && FromYm(23999) == Period(1999, 12);
  }

  // ---------------------------------------------------------------------
  // The PDF statements
  // ---------------------------------------------------------------------

  /** A statement link is a candidate when its text parses as "Month dd,
      yyyy" and the day is within two of the statement day; its period is
      then the date's month. */
  function Candidate(parse: DateParser, sday: int, text: string): (r: Option<int>)
    ensures r.Some? <==> parse(text, LongDate).Some? && -3 < parse(text, LongDate).value.day - sday < 3
    ensures r.Some? ==> r.value == FromDate(parse(text, LongDate).value).Ym()
  {
    match parse(text, LongDate)
    case None => None
    case Some(d) =>
      if -3 < d.day - sday < 3 then Some(FromDate(d).Ym()) else None
  }

  /** `pdf_stmts`: each candidate's period mapped to its link, a later link
      for a period replacing an earlier one; other links are skipped. */
  function Candidates(parse: DateParser, sday: int, links: seq<string>): (m: map<int, string>)
    ensures forall k :: k in m <==> exists i :: 0 <= i < |links| && Candidate(parse, sday, links[i]) == Some(k)
    ensures forall k :: k in m ==> Candidate(parse, sday, m[k]) == Some(k)
  {
    if |links| == 0 then map[]
    else
      var n := |links| - 1;
      var front := Candidates(parse, sday, links[..n]);
      assert forall i :: 0 <= i < n ==> links[..n][i] == links[i];
      match Candidate(parse, sday, links[n])
      case None => front
      case Some(k) => front[k := links[n]]
  }

  /** How a filed PDF was fetched: by clicking its link. */
  function LinkSource(cands: map<int, string>): (int, string) -> Source {
    (k: int, f: string) => Download(if k in cands then cands[k] else "")
  }

  /** What the PDF loop of the source records: with PDF requests, every
      candidate is filed, and nothing else is recorded. */
  ghost predicate AsWrittenOutcome(pdfs: set<int>, cands: map<int, string>, log: seq<Event>) {
    && (pdfs != {} ==> forall k :: k in cands ==> Pulled(k, "pdf", Download(cands[k])) in log)
    && (forall e :: e in log ==> pdfs != {} && e.Pulled? && e.ym in cands && e.fmt == "pdf" && e.source == Download(cands[e.ym]))
  }

  /** The PDF loop as the source writes it: it iterates over the candidates
      instead of the requested periods, so the failure branch can never be
      taken. */
  method PdfPhaseAsWritten(pdfs: set<int>, cands: map<int, string>) returns (log: seq<Event>)
    ensures AsWrittenOutcome(pdfs, cands, log)
  {
    log := [];
    if pdfs == {} {
      return;
    }
    var todo := cands.Keys;
    while todo != {}
      invariant todo <= cands.Keys
      invariant forall k :: k in cands && k !in todo ==> Pulled(k, "pdf", Download(cands[k])) in log
      invariant forall e :: e in log ==> e.Pulled? && e.ym in cands && e.fmt == "pdf" && e.source == Download(cands[e.ym])
      decreases |todo|
    {
      var k := Choose(todo);
      if k !in cands {
        log := log + [Failed(k, "pdf")];
      } else {
        log := log + [Pulled(k, "pdf", Download(cands[k]))];
      }
      todo := todo - {k};
    }
  }

  /** The discrepancy on a concrete input. January 2000 is requested and
      not offered, while February 2000 is offered and not requested: the
      loop as written files February and never reports January, whereas
      the request loop reports January as failed and files nothing. */
  lemma AsWrittenFilesUnrequested(log: seq<Event>, fixed: seq<Event>)
    requires AsWrittenOutcome({24000}, map[24001 := "February 1, 2000"], log)
    requires ListedOutcome(PdfOnly({24000}), {24001}, LinkSource(map[24001 := "February 1, 2000"]), fixed)
    ensures Pulled(24001, "pdf", Download("February 1, 2000")) in log && Failed(24000, "pdf") !in log
    ensures Failed(24000, "pdf") in fixed && forall e :: e in fixed ==> e.ym == 24000
  {
    var cands := map[24001 := "February 1, 2000"];
    assert 24001 in cands;
    assert forall e :: e in log ==> e.Pulled?;
    var req := PdfOnly({24000});
    assert 24000 in req && "pdf" in req[24000] && 24000 !in {24001};
    forall e | e in fixed
      ensures e.ym == 24000
    {
      assert e.ym in req;
    }
  }

  /** The PDF loop as evidently intended: over the requested periods, a
      period without a candidate fails and any other downloads its link. */
  method PdfPhase(pdfs: set<int>, cands: map<int, string>) returns (log: seq<Event>)
    ensures ListedOutcome(PdfOnly(pdfs), cands.Keys, LinkSource(cands), log)
    ensures OneEventPerRequest(log)
  {
    log := ListedLoop(PdfOnly(pdfs), cands.Keys, LinkSource(cands));
  }

  /** `do_pull` after login, with both loops corrected: the auxiliary
      phase first (an exception ends the session), then the PDF phase over
      the candidates among the statement links. */
  method DoPull(statements: Lib, sday: int, labels: seq<string>, links: seq<string>, parse: DateParser)
    returns (run: PullRun)
    ensures var aux := AuxRequests(statements, AUX_FMTS);
      run.abort.Some? <==> Raises(aux, sday, labels)
    ensures MenuSound(AuxRequests(statements, AUX_FMTS), sday, labels, EventsFor(run.log, AUX_FMTS))
    ensures run.abort.None? ==> MenuOutcome(AuxRequests(statements, AUX_FMTS), labels, EventsFor(run.log, AUX_FMTS))
    ensures run.abort.None? ==> var cands := Candidates(parse, sday, links);
      ListedOutcome(PdfOnly(PdfRequests(statements)), cands.Keys, LinkSource(cands), EventsFor(run.log, {"pdf"}))
    ensures run.abort.Some? ==> forall e :: e in run.log ==> e.fmt != "pdf"
  {
    FormatTables();
    var pdfs, aux := Partition(statements, AUX_FMTS);
    var auxLog, abort := AuxPhase(aux, sday, labels);
    assert forall e :: e in auxLog ==> e.fmt in AUX_FMTS && e.fmt !in {"pdf"};
    if abort.Some? {
      EventsForSplit(auxLog, [], AUX_FMTS, {"pdf"});
      assert auxLog + [] == auxLog;
      MenuSoundSameEvents(aux, sday, labels, auxLog, EventsFor(auxLog, AUX_FMTS));
      return PullRun(auxLog, abort);
    }
    var cands := Candidates(parse, sday, links);
    var pdfLog := PdfPhase(pdfs, cands);
    run := PullRun(auxLog + pdfLog, None);
    EventsForSplit(auxLog, pdfLog, AUX_FMTS, {"pdf"});
    MenuSoundSameEvents(aux, sday, labels, auxLog, EventsFor(run.log, AUX_FMTS));
    MenuOutcomeSameEvents(aux, labels, auxLog, EventsFor(run.log, AUX_FMTS));
    ListedOutcomeSameEvents(PdfOnly(pdfs), cands.Keys, LinkSource(cands), pdfLog, EventsFor(run.log, {"pdf"}));
  }

  /** `do_pull` after login as the source writes it: with any auxiliary
      request the session ends in the auxiliary loop before anything is
      recorded; otherwise the PDF loop as written files every candidate. */
  method DoPullAsWritten(statements: Lib, sday: int, links: seq<string>, parse: DateParser)
    returns (run: PullRun)
    ensures AuxRequests(statements, AUX_FMTS) != map[] ==> run.log == [] && run.abort.Some?
    ensures AuxRequests(statements, AUX_FMTS) == map[] ==>
      run.abort.None? && AsWrittenOutcome(PdfRequests(statements), Candidates(parse, sday, links), run.log)
  {
    var pdfs, aux := Partition(statements, AUX_FMTS);
    var auxLog, abort := AuxPhaseAsWritten(aux, sday);
    if abort.Some? {
      return PullRun(auxLog, abort);
    }
    var pdfLog := PdfPhaseAsWritten(pdfs, Candidates(parse, sday, links));
    run := PullRun(pdfLog, None);
  }

  lemma MenuSoundSameEvents(aux: Lib, sday: int, labels: seq<string>, a: seq<Event>, b: seq<Event>)
    requires forall e :: e in a <==> e in b
    requires MenuSound(aux, sday, labels, a)
    ensures MenuSound(aux, sday, labels, b)
  {
  }

  lemma MenuOutcomeSameEvents(aux: Lib, labels: seq<string>, a: seq<Event>, b: seq<Event>)
    requires forall e :: e in a <==> e in b
    requires MenuOutcome(aux, labels, a)
    ensures MenuOutcome(aux, labels, b)
  {
  }
}
