/** Bank of America (`BoA`) and its Visa variant (`BoAVisa`): which account
    link is chosen, how the transaction-period dropdown maps to periods, and
    the outcome of every requested auxiliary (non-PDF) format.

    The site is data: the account-name link texts, the dropdown option
    texts, and the set of (period, format) downloads whose click reloads the
    page (the "stale" case, which the site produces for a period without
    transactions). After a stale page the dropdown is read again; the model
    takes the listing to be unchanged by the reload.
 */
module Boa {
  import opened Base
  import opened Text
  import opened StatementDates
  import opened Library
  import opened Requests

  /** `BoA` (checking) and its subclass `BoAVisa`. */
  datatype Variant = Checking | Visa

  function PullFmts(v: Variant): set<string> {
    match v
    case Checking => {"pdf", "csv", "qfx", "qif", "txt"}
    case Visa => {"pdf", "csv", "qfx", "qif"}
  }

  function AuxFmts(v: Variant): set<string> {
    match v
    case Checking => {"csv", "qfx", "qif", "txt"}
    case Visa => {"csv", "qfx", "qif"}
  }

  /** The dropdown option that selects each auxiliary format. */
  function FmtSelectors(v: Variant): map<string, string> {
    match v
    case Checking => map[
      "csv" := "option[name=download_file_in_this_format_CSV]",
      "qfx" := "option[name=download_file_in_this_format_QFX]",
      "qif" := "option[name=download_file_in_this_format_QIF4]",
      "txt" := "option[name=download_file_in_this_format_TXT]"]
    case Visa => map[
      "csv" := "option[name=download_file_in_this_format_COMMA_DELIMITED]",
      "qfx" := "option[name=download_file_in_this_format_QFX]",
      "qif" := "option[name=download_file_in_this_format_QIF_4_digit]"]
  }

  /** `FMT_SELECTORS[fmt]`, for a format that has one. */
  function Selector(v: Variant, f: string): string {
    if f in FmtSelectors(v) then FmtSelectors(v)[f] else ""
  }

  /** The auxiliary formats are the pulled formats other than PDF, and each
      has a selector; the Visa variant pulls a strict subset (no "txt"). */
  lemma FormatTables(v: Variant)
    ensures AuxFmts(v) == PullFmts(v) - {"pdf"}
    ensures FmtSelectors(v).Keys == AuxFmts(v)
    ensures PullFmts(Visa) == PullFmts(Checking) - {"txt"}
  {
  }

  // ---------------------------------------------------------------------
  // Account selection
  // ---------------------------------------------------------------------

  /** Python `text[-4:]`. */
  function LastFour(text: string): string {
    PySlice(text, -4, |text|)
  }

  /** The `for ... else` over the account-name links: the first link whose
      last four characters equal `lastFour` is clicked; with no such link
      the loop's `else` raises ValueError. */
  function SelectAccount(names: seq<string>, lastFour: string): (r: Result<nat>)
    ensures r.Ok? ==> r.value < |names| && LastFour(names[r.value]) == lastFour
    ensures r.Ok? ==> forall j :: 0 <= j < r.value ==> LastFour(names[j]) != lastFour
    ensures r.Err? <==> forall j :: 0 <= j < |names| ==> LastFour(names[j]) != lastFour
    ensures r.Err? ==> r.error == ValueError
  {
    if |names| == 0 then Err(ValueError)
    else if LastFour(names[0]) == lastFour then Ok(0)
    else
      match SelectAccount(names[1..], lastFour)
      case Err(e) => Err(e)
      case Ok(i) => Ok(i + 1)
  }

  // ---------------------------------------------------------------------
  // The transaction-period dropdown
  // ---------------------------------------------------------------------

  /** The format an option's date is parsed with. */
  function OptionFormat(text: string): (f: DateFormat)
    ensures f == SlashDate <==> Contains(text, "Period ending")
    ensures f != SlashDate ==> f == LongDate
  {
    if Contains(text, "Period ending") then SlashDate else LongDate
  }

  /** The part of an option's text that is parsed: the last ten characters
      of the stripped text for a "Period ending" option, otherwise the whole
      stripped text. */
  function OptionDateText(text: string): (t: string)
    ensures var s := Strip(text);
      && |t| <= |s| && t == s[|s| - |t|..]
      && (Contains(text, "Period ending") ==> |t| == if |s| < 10 then |s| else 10)
      && (!Contains(text, "Period ending") ==> t == s)
  {
    var s := Strip(text);
    if Contains(text, "Period ending") then PySlice(s, -10, |s|) else s
  }

  /** The period of one dropdown option; the day is discarded, and a date
      `strptime` rejects raises ValueError. */
  function OptionPeriod(text: string, parse: DateParser): (r: Result<int>)
    ensures r.Ok? <==> parse(OptionDateText(text), OptionFormat(text)).Some?
    ensures r.Ok? ==> var d := parse(OptionDateText(text), OptionFormat(text)).value;
      r.value == Period(d.year, d.month).Ym()
    ensures r.Err? ==> r.error == ValueError
  {
    match parse(OptionDateText(text), OptionFormat(text))
    case None => Err(ValueError)
    case Some(d) => Ok(FromDate(d).Ym())
  }

  /** One option as an entry of `other_stmts`: its period and the option. */
  function OptionEntry(parse: DateParser, text: string): (r: Result<(int, string)>)
    ensures r.Ok? <==> OptionPeriod(text, parse).Ok?
    ensures r.Ok? ==> r.value == (OptionPeriod(text, parse).value, text)
    ensures r.Err? ==> r.error == ValueError
  {
    match OptionPeriod(text, parse)
    case Err(e) => Err(e)
    case Ok(k) => Ok((k, text))
  }

  /** `detect_aux_statements`: every option but the first is read; a later
      option for the same period replaces an earlier one, and one bad date
      aborts the scan with ValueError. */
  function DetectAux(options: seq<string>, parse: DateParser): (r: Result<map<int, string>>)
    ensures var rest := PySlice(options, 1, |options|);
      r.Ok? <==> forall i :: 0 <= i < |rest| ==> OptionPeriod(rest[i], parse).Ok?
    ensures r.Err? ==> r.error == ValueError
  {
    var rest := PySlice(options, 1, |options|);
    var r := IndexAll(rest, (t: string) => OptionEntry(parse, t));
    assert r.Err? ==> exists i :: 0 <= i < |rest| && OptionEntry(parse, rest[i]) == Err(r.error);
    r
  }

  /** The dropdown lists exactly the periods of its options after the
      first. */
  lemma DetectAuxKeys(options: seq<string>, parse: DateParser)
    ensures DetectAux(options, parse).Ok? ==>
      forall k :: k in DetectAux(options, parse).value <==>
        exists i :: 0 <= i < |PySlice(options, 1, |options|)| && OptionPeriod(PySlice(options, 1, |options|)[i], parse) == Ok(k)
  {
    if DetectAux(options, parse).Err? {
      return;
    }
    var rest := PySlice(options, 1, |options|);
    var f := (t: string) => OptionEntry(parse, t);
    var m := IndexAll(rest, f).value;
    assert m == DetectAux(options, parse).value;
    forall k | k in m
      ensures exists i :: 0 <= i < |rest| && OptionPeriod(rest[i], parse) == Ok(k)
    {
      var i :| 0 <= i < |rest| && f(rest[i]).value.0 == k;
      assert f(rest[i]) == OptionEntry(parse, rest[i]);
    }
    forall i | 0 <= i < |rest|
      ensures OptionPeriod(rest[i], parse).value in m
    {
      assert f(rest[i]) == OptionEntry(parse, rest[i]);
    }
  }

  /** Each listed period is mapped to an option that denotes it. */
  lemma DetectAuxValues(options: seq<string>, parse: DateParser)
    ensures DetectAux(options, parse).Ok? ==>
      forall k :: k in DetectAux(options, parse).value ==> OptionPeriod(DetectAux(options, parse).value[k], parse) == Ok(k)
  {
    if DetectAux(options, parse).Err? {
      return;
    }
    var rest := PySlice(options, 1, |options|);
    var f := (t: string) => OptionEntry(parse, t);
    IndexAllValues(rest, f);
    var m := IndexAll(rest, f).value;
    assert m == DetectAux(options, parse).value;
    forall k | k in m
      ensures OptionPeriod(m[k], parse) == Ok(k)
    {
      var i :| 0 <= i < |rest| && f(rest[i]).value == (k, m[k]);
      assert f(rest[i]) == OptionEntry(parse, rest[i]);
    }
  }

  /** The first option is a prompt and never matters. */
  lemma DetectAuxSkipsFirst(a: string, b: string, rest: seq<string>, parse: DateParser)
    ensures DetectAux([a] + rest, parse) == DetectAux([b] + rest, parse)
  {
    assert PySlice([a] + rest, 1, |rest| + 1) == rest;
    assert PySlice([b] + rest, 1, |rest| + 1) == rest;
    DetectAuxOfRest([a] + rest, [b] + rest, parse);
  }

  /** The scan sees only the options after the first. */
  lemma DetectAuxOfRest(o1: seq<string>, o2: seq<string>, parse: DateParser)
    requires PySlice(o1, 1, |o1|) == PySlice(o2, 1, |o2|)
    ensures DetectAux(o1, parse) == DetectAux(o2, parse)
  {
  }

  // ---------------------------------------------------------------------
  // The auxiliary downloads
  // ---------------------------------------------------------------------

  /** Some requested format of the period reloads the page when clicked. */
  ghost predicate GoesStale(k: int, fmts: set<string>, stale: set<(int, string)>) {
    exists f :: f in fmts && (k, f) in stale
  }

  /** Every format of the period filed as an empty placeholder. */
  method Placeholders(k: int, fmts: set<string>) returns (log: seq<Event>)
    ensures forall e :: e in log ==> e == Pulled(k, e.fmt, Placeholder) && e.fmt in fmts
    ensures forall f :: f in fmts ==> Pulled(k, f, Placeholder) in log
  {
    log := EventPerFormat(fmts, g => Pulled(k, g, Placeholder));
  }

  /** The first `j` events of `log` are downloads and the rest are
      placeholders. */
  ghost predicate SplitAt(log: seq<Event>, j: int) {
    && 0 <= j <= |log|
    && (forall i :: 0 <= i < j ==> log[i].Pulled? && log[i].source.Download?)
    && (forall i :: j <= i < |log| ==> log[i].Pulled? && log[i].source.Placeholder?)
  }

  /** Downloads followed by placeholders split where the placeholders begin. */
  lemma SplitOfJoin(downloads: seq<Event>, placeholders: seq<Event>)
    requires forall e :: e in downloads ==> e.Pulled? && e.source.Download?
    requires forall e :: e in placeholders ==> e.Pulled? && e.source.Placeholder?
    ensures SplitAt(downloads + placeholders, |downloads|)
  {
    var log := downloads + placeholders;
    forall i | 0 <= i < |downloads| ensures log[i].Pulled? && log[i].source.Download? {
      assert log[i] == downloads[i] && downloads[i] in downloads;
    }
    forall i | |downloads| <= i < |log| ensures log[i].Pulled? && log[i].source.Placeholder? {
      assert log[i] == placeholders[i - |downloads|] && placeholders[i - |downloads|] in placeholders;
    }
  }

  /** A click reloaded the page after the downloads `downloads`: every
      format of the period follows them as a placeholder. */
  method StaleFiling(k: int, fmts: set<string>, downloads: seq<Event>) returns (log: seq<Event>)
    requires forall e :: e in downloads ==> e.Pulled? && e.ym == k && e.fmt in fmts && e.source.Download?
    ensures forall e :: e in log ==> e in downloads || e == Pulled(k, e.fmt, Placeholder)
    ensures forall e :: e in log ==> e.Pulled? && e.ym == k && e.fmt in fmts
    ensures forall f :: f in fmts ==> Pulled(k, f, Placeholder) in log
    ensures SplitAt(log, |downloads|)
  {
    var placeholders := Placeholders(k, fmts);
    SplitOfJoin(downloads, placeholders);
    log := downloads + placeholders;
  }

  /** The downloads of one listed period, each format through its selector,
      until a click reloads the page (`stalled`) or every format is done. */
  method Downloads(v: Variant, k: int, fmts: set<string>, stale: set<(int, string)>) returns (log: seq<Event>, stalled: bool)
    ensures forall e :: e in log ==>
      && e.Pulled? && e.ym == k && e.fmt in fmts
      && e.source == Download(Selector(v, e.fmt)) && (k, e.fmt) !in stale
    ensures stalled ==> GoesStale(k, fmts, stale)
    ensures !stalled ==> forall f :: f in fmts ==> Pulled(k, f, Download(Selector(v, f))) in log
  {
    log := [];
    var todo := fmts;
    while todo != {}
      invariant todo <= fmts
      invariant forall e :: e in log ==>
        && e.Pulled? && e.ym == k && e.fmt in fmts - todo
        && e.source == Download(Selector(v, e.fmt)) && (k, e.fmt) !in stale
      invariant forall f :: f in fmts - todo ==> (k, f) !in stale && Pulled(k, f, Download(Selector(v, f))) in log
      decreases |todo|
    {
      var f := Choose(todo);
      if (k, f) in stale {
        return log, true;
      }
      log := log + [Pulled(k, f, Download(Selector(v, f)))];
      todo := todo - {f};
    }
    stalled := false;
  }

  /** The format loop of one listed period. Formats are downloaded through
      their selector until one click reloads the page; then every format of
      the period is filed as an empty placeholder and the period is done. */
  method AuxPeriod(v: Variant, k: int, fmts: set<string>, stale: set<(int, string)>) returns (log: seq<Event>)
    requires fmts <= AuxFmts(v)
    ensures forall e :: e in log ==> e.Pulled? && e.ym == k && e.fmt in fmts
    ensures GoesStale(k, fmts, stale) ==> forall f :: f in fmts ==> Pulled(k, f, Placeholder) in log
    ensures !GoesStale(k, fmts, stale) ==> forall f :: f in fmts ==> Pulled(k, f, Download(Selector(v, f))) in log
    ensures forall e :: e in log && e.source.Download? ==>
      e.source.via == Selector(v, e.fmt) && (k, e.fmt) !in stale
    ensures forall e :: e in log && e.source.Placeholder? ==> GoesStale(k, fmts, stale)
    ensures forall e :: e in log ==> !e.source.Printed?
    ensures exists j :: SplitAt(log, j)
  {
    var stalled;
    log, stalled := Downloads(v, k, fmts, stale);
    if stalled {
      log := StaleFiling(k, fmts, log);
    } else {
      SplitOfJoin(log, []);
      assert log + [] == log;
    }
  }

  /** What the auxiliary loop guarantees for the requests `aux` and the
      periods `listed` in the dropdown: only requested formats appear; a
      request fails exactly when its period is not listed; and every request
      of a listed period is filed, downloaded through its selector or as a
      placeholder. */
  ghost predicate AuxOutcome(v: Variant, aux: Lib, listed: set<int>, stale: set<(int, string)>, log: seq<Event>) {
    && (forall e :: e in log ==> e.ym in aux && e.fmt in aux[e.ym] && !(e.Pulled? && e.source.Printed?))
    && (forall k, f :: Failed(k, f) in log <==> k in aux && f in aux[k] && k !in listed)
    && (forall k, f :: k in aux && f in aux[k] && k in listed ==>
          Pulled(k, f, Placeholder) in log || Pulled(k, f, Download(Selector(v, f))) in log)
  }

  /** The loop over `boa_aux_statements.items()`, in any order (the dict's
      insertion order is left open). */
  method AuxLoop(v: Variant, aux: Lib, listed: set<int>, stale: set<(int, string)>) returns (log: seq<Event>)
    requires forall k :: k in aux ==> aux[k] <= AuxFmts(v)
    ensures AuxOutcome(v, aux, listed, stale, log)
  {
    log := [];
    var todo := aux.Keys;
    while todo != {}
      invariant todo <= aux.Keys
      invariant forall e :: e in log ==> e.ym in aux && e.ym !in todo && e.fmt in aux[e.ym] && !(e.Pulled? && e.source.Printed?)
      invariant forall k, f :: Failed(k, f) in log <==> k in aux && k !in todo && f in aux[k] && k !in listed
      invariant forall k, f :: k in aux && k !in todo && f in aux[k] && k in listed ==>
        Pulled(k, f, Placeholder) in log || Pulled(k, f, Download(Selector(v, f))) in log
      decreases |todo|
    {
      var k := Choose(todo);
      var events: seq<Event>;
      if k !in listed {
        events := FailAll(k, aux[k]);
      } else {
        events := AuxPeriod(v, k, aux[k], stale);
      }
      log := log + events;
      todo := todo - {k};
    }
  }

  /** The periods the dropdown lists; none when it cannot be read. */
  function ListedPeriods(options: seq<string>, parse: DateParser): set<int> {
    match DetectAux(options, parse)
    case Ok(m) => m.Keys
    case Err(_) => {}
  }

  /** `do_pull` after login. The account is selected first (no match raises
      ValueError); the requests are partitioned; if any auxiliary format is
      requested the dropdown is read (a bad date raises ValueError) and each
      auxiliary period is handled by `AuxLoop`. The PDF branch stops at a
      debugger breakpoint and files nothing. */
  method DoPull(v: Variant, statements: Lib, names: seq<string>, lastFour: string,
                options: seq<string>, parse: DateParser, stale: set<(int, string)>)
    returns (run: PullRun)
    ensures run.abort.Some? <==>
      SelectAccount(names, lastFour).Err? ||
      (AuxRequests(statements, AuxFmts(v)) != map[] && DetectAux(options, parse).Err?)
    ensures run.abort.Some? ==> run.log == [] && run.abort == Some(ValueError)
    ensures run.abort.None? ==>
      AuxOutcome(v, AuxRequests(statements, AuxFmts(v)), ListedPeriods(options, parse), stale, run.log)
  {
    var sel := SelectAccount(names, lastFour);
    if sel.Err? {
      return PullRun([], Some(sel.error));
    }
    var pdfs, aux := Partition(statements, AuxFmts(v));
    if aux == map[] {
      return PullRun([], None);
    }
    var detected := DetectAux(options, parse);
    if detected.Err? {
      return PullRun([], Some(detected.error));
    }
    var log := AuxLoop(v, aux, detected.value.Keys, stale);
    run := PullRun(log, None);
  }
}
