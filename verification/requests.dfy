/** What every institution's `do_pull` shares: the split of the requested
    statements into a set of PDF periods and a map of auxiliary formats, and
    the outcome of each attempt, recorded as an event log.

    The browser is replaced by data. A site listing is a sequence of links
    (visible text and href); `strptime` is a parameter that either yields
    a parsed date or rejects the text. Each `log_failed_pull` becomes a
    `Failed` event and each `file_statement` followed by
    `log_successful_pull` a `Pulled` event naming where the file came from.
 */
module Requests {
  import opened Base
  import opened Text
  import opened StatementDates
  import opened Library

  /** The `strptime` formats the institutions use. */
  datatype DateFormat =
    | SlashDate       // "%m/%d/%Y"
    | LongDate        // "%B %d, %Y"
    | ShortMonthDate  // "%b %d, %Y"

  /** `strptime`: None when the text does not match the format. */
  type DateParser = (string, DateFormat) -> Option<Date>

  /** A link element of a listing page. */
  datatype Link = Link(text: string, href: string)

  /** Where a filed statement came from: a download triggered by a script,
      URL or menu item; a page printed to PDF; or an empty placeholder. */
  datatype Source = Download(via: string) | Printed(url: string) | Placeholder

  datatype Event =
    | Failed(ym: int, fmt: string)
    | Pulled(ym: int, fmt: string, source: Source)

  /** The events of one `do_pull`, and the exception that ended it early,
      if any. */
  datatype PullRun = PullRun(log: seq<Event>, abort: Option<Error>)

  // ---------------------------------------------------------------------
  // The request partition
  // ---------------------------------------------------------------------

  /** The periods whose requested formats include "pdf". */
  function PdfRequests(statements: Lib): set<int> {
    set k | k in statements && "pdf" in statements[k]
  }

  /** Each period with a requested auxiliary format, mapped to
      `aux & fmts`. */
  function AuxRequests(statements: Lib, aux: set<string>): Lib {
    map k | k in statements && aux * statements[k] != {} :: aux * statements[k]
  }

  /** The PDF requests as a request map: "pdf" for each period. */
  function PdfOnly(pdfs: set<int>): Lib {
    map k | k in pdfs :: {"pdf"}
  }

  /** The partition loop over `statements.items()`, visiting the periods in
      any order (the dict's insertion order is left open): `pdf_statements` collects the periods that ask
      for "pdf", and `aux_statements` maps a period to `AUX & fmts` when
      that is non-empty. */
  method Partition(statements: Lib, aux: set<string>) returns (pdfs: set<int>, auxReqs: Lib)
    ensures pdfs == PdfRequests(statements)
    ensures auxReqs == AuxRequests(statements, aux)
  {
    pdfs := {};
    auxReqs := map[];
    var todo := statements.Keys;
    while todo != {}
      invariant todo <= statements.Keys
      invariant forall k :: k in pdfs <==> k in statements && k !in todo && "pdf" in statements[k]
      invariant forall k :: k in auxReqs <==> k in statements && k !in todo && aux * statements[k] != {}
      invariant forall k :: k in auxReqs ==> auxReqs[k] == aux * statements[k]
      decreases |todo|
    {
      var k := Choose(todo);
      var fmts := statements[k];
      if "pdf" in fmts {
        pdfs := pdfs + {k};
      }
      if aux * fmts != {} {
        auxReqs := auxReqs[k := aux * fmts];
      }
      todo := todo - {k};
    }
    forall k ensures k in pdfs <==> k in PdfRequests(statements) {
    }
    var want := AuxRequests(statements, aux);
    forall k ensures k in auxReqs <==> k in want {
    }
    assert auxReqs.Keys == want.Keys;
    assert forall k :: k in want ==> auxReqs[k] == want[k];
  }

  /** When every requested format is "pdf" or auxiliary, the two halves of
      the partition cover every request exactly: each requested
      (period, format) lands on one side, and nothing else does. */
  lemma PartitionCovers(statements: Lib, aux: set<string>)
    requires "pdf" !in aux
    requires forall k :: k in statements ==> statements[k] <= aux + {"pdf"}
    ensures var pdfs, auxReqs := PdfRequests(statements), AuxRequests(statements, aux);
      forall k, f :: HasFormat(statements, k, f) <==>
        (f == "pdf" && k in pdfs) || (k in auxReqs && f in auxReqs[k])
    ensures var auxReqs := AuxRequests(statements, aux);
      forall k :: k in auxReqs ==> "pdf" !in auxReqs[k]
  {
    var pdfs, auxReqs := PdfRequests(statements), AuxRequests(statements, aux);
    forall k, f
      ensures HasFormat(statements, k, f) <==> (f == "pdf" && k in pdfs) || (k in auxReqs && f in auxReqs[k])
    {
      if HasFormat(statements, k, f) && f != "pdf" {
        assert f in aux * statements[k];
      }
    }
  }

  // ---------------------------------------------------------------------
  // One event per format
  // ---------------------------------------------------------------------

  /** No (period, format) pair has two events. */
  predicate OneEventPerRequest(log: seq<Event>) {
    forall i, j :: 0 <= i < j < |log| ==> log[i].ym != log[j].ym || log[i].fmt != log[j].fmt
  }

  /** A `for fmt in fmts` loop that records one event per format, in an
      unspecified order: each format gets its event, and no other event is
      recorded. */
  method EventPerFormat(fmts: set<string>, event: string -> Event) returns (log: seq<Event>)
    requires forall f :: f in fmts ==> event(f).fmt == f
    ensures forall f :: f in fmts ==> event(f) in log
    ensures forall e :: e in log ==> exists f :: f in fmts && e == event(f)
    ensures forall i, j :: 0 <= i < j < |log| ==> log[i].fmt != log[j].fmt
  {
    log := [];
    var todo := fmts;
    while todo != {}
      invariant todo <= fmts
      invariant forall f :: f in fmts && f !in todo ==> event(f) in log
      invariant forall e :: e in log ==> exists f :: f in fmts && f !in todo && e == event(f)
      invariant forall i :: 0 <= i < |log| ==> log[i].fmt in fmts && log[i].fmt !in todo
      invariant forall i, j :: 0 <= i < j < |log| ==> log[i].fmt != log[j].fmt
      decreases |todo|
    {
      var f := Choose(todo);
      log := log + [event(f)];
      todo := todo - {f};
    }
  }

  /** The failures `log_failed_pull` records for a period none of whose
      formats can be fetched. */
  method FailAll(k: int, fmts: set<string>) returns (log: seq<Event>)
    ensures forall f :: Failed(k, f) in log <==> f in fmts
    ensures forall e :: e in log ==> e.Failed? && e.ym == k
    ensures OneEventPerRequest(log)
  {
    log := EventPerFormat(fmts, f => Failed(k, f));
  }

  /** The nested loop over `statements.items()` and each period's formats,
      in any order (dict insertion order and set order are left open), recording `decide(k, f)` for each requested
      (period, format): every request gets its event, and nothing else is
      recorded. */
  method ForEachRequest(req: Lib, decide: (int, string) -> Event) returns (log: seq<Event>)
    requires forall k, f :: decide(k, f).ym == k && decide(k, f).fmt == f
    ensures forall k, f :: HasFormat(req, k, f) ==> decide(k, f) in log
    ensures forall e :: e in log ==> HasFormat(req, e.ym, e.fmt) && e == decide(e.ym, e.fmt)
    ensures OneEventPerRequest(log)
  {
    log := [];
    var todo := req.Keys;
    while todo != {}
      invariant todo <= req.Keys
      invariant forall k, f :: HasFormat(req, k, f) && k !in todo ==> decide(k, f) in log
      invariant forall e :: e in log ==> HasFormat(req, e.ym, e.fmt) && e == decide(e.ym, e.fmt)
      invariant forall i :: 0 <= i < |log| ==> log[i].ym !in todo
      invariant OneEventPerRequest(log)
      decreases |todo|
    {
      var k := Choose(todo);
      var events := EventPerFormat(req[k], f => decide(k, f));
      assert forall i :: 0 <= i < |events| ==> events[i].ym == k by {
        forall i | 0 <= i < |events|
          ensures events[i].ym == k
        {
          assert events[i] in events;
        }
      }
      var log' := log + events;
      forall i, j | 0 <= i < j < |log'|
        ensures log'[i].ym != log'[j].ym || log'[i].fmt != log'[j].fmt
      {
        if j < |log| {
        } else if i >= |log| {
          assert log'[i] == events[i - |log|] && log'[j] == events[j - |log|];
        } else {
          assert log'[j] == events[j - |log|];
        }
      }
      log := log';
      todo := todo - {k};
    }
  }

  /** The outcome of a loop over requests `req` against the periods
      `listed` on the site: only requested formats appear; a request fails
      exactly when its period is not listed; every request of a listed
      period is filed from `src`. */
  ghost predicate ListedOutcome(req: Lib, listed: set<int>, src: (int, string) -> Source, log: seq<Event>) {
    && (forall e :: e in log ==> e.ym in req && e.fmt in req[e.ym])
    && (forall e :: e in log && e.Pulled? ==> e.ym in listed && e.source == src(e.ym, e.fmt))
    && (forall k, f :: Failed(k, f) in log <==> k in req && f in req[k] && k !in listed)
    && (forall k, f :: k in req && f in req[k] && k in listed ==> Pulled(k, f, src(k, f)) in log)
  }

  /** The usual request loop: a period the site does not list fails for
      each of its formats; a listed one files each format from its source.
      Each request gets one event. */
  method ListedLoop(req: Lib, listed: set<int>, src: (int, string) -> Source) returns (log: seq<Event>)
    ensures ListedOutcome(req, listed, src, log)
    ensures OneEventPerRequest(log)
  {
    var decide := (k: int, f: string) => if k in listed then Pulled(k, f, src(k, f)) else Failed(k, f);
    log := ForEachRequest(req, decide);
    forall k, f | Failed(k, f) in log
      ensures k !in listed
    {
      assert Failed(k, f) == decide(k, f);
    }
    forall k, f | k in req && f in req[k] && k in listed
      ensures Pulled(k, f, src(k, f)) in log
    {
      assert HasFormat(req, k, f) && decide(k, f) == Pulled(k, f, src(k, f));
    }
    forall k, f | k in req && f in req[k] && k !in listed
      ensures Failed(k, f) in log
    {
      assert HasFormat(req, k, f) && decide(k, f) == Failed(k, f);
    }
  }

  /** The events of a log whose format is one of `fmts`, in order. */
  function EventsFor(log: seq<Event>, fmts: set<string>): (r: seq<Event>)
    ensures forall e :: e in r <==> e in log && e.fmt in fmts
    ensures |r| <= |log|
  {
    if |log| == 0 then []
    else EventsFor(log[..|log| - 1], fmts) + (if log[|log| - 1].fmt in fmts then [log[|log| - 1]] else [])
  }

  /** Filtering a log made of two phases with disjoint formats gives back
      each phase's events. */
  lemma EventsForSplit(a: seq<Event>, b: seq<Event>, fa: set<string>, fb: set<string>)
    requires forall e :: e in a ==> e.fmt in fa && e.fmt !in fb
    requires forall e :: e in b ==> e.fmt in fb && e.fmt !in fa
    ensures forall e :: e in EventsFor(a + b, fa) <==> e in a
    ensures forall e :: e in EventsFor(a + b, fb) <==> e in b
  {
  }

  /** The outcome predicate only looks at which events occur. */
  lemma ListedOutcomeSameEvents(req: Lib, listed: set<int>, src: (int, string) -> Source, a: seq<Event>, b: seq<Event>)
    requires forall e :: e in a <==> e in b
    requires ListedOutcome(req, listed, src, a)
    ensures ListedOutcome(req, listed, src, b)
  {
  }

  /** The period of a `mm/dd/yyyy` link text, read by `int()` as
      `StatementDate(yyyy, mm)`: the text must split on "/" into exactly
      three fields (otherwise the unpacking raises ValueError), and the
      year and month fields must be integers. The day is never parsed. */
  function SlashPeriod(text: string): (r: Result<Period>)
    ensures r.Ok? <==> (|SplitOn(text, "/")| == 3 && ParseInt(SplitOn(text, "/")[2]).Some?
                        && ParseInt(SplitOn(text, "/")[0]).Some?)
    ensures r.Ok? ==> r.value == Period(ParseInt(SplitOn(text, "/")[2]).value, ParseInt(SplitOn(text, "/")[0]).value)
    ensures r.Err? ==> r.error == ValueError
  {
    var fields := SplitOn(text, "/");
    if |fields| != 3 then Err(ValueError)
    else
      match (ParseInt(fields[2]), ParseInt(fields[0]))
      case (Some(y), Some(m)) => Ok(Period(y, m))
      case _ => Err(ValueError)
  }

  /** A date written `mm/dd/yyyy` with a four-digit year and two-digit
      month and day reads back as its own period. */
  lemma SlashPeriodOfDate(mm: string, dd: string, yyyy: string)
    requires |mm| == 2 && |dd| == 2 && |yyyy| == 4
    requires AllDigits(mm) && AllDigits(dd) && AllDigits(yyyy)
    ensures SlashPeriod(mm + "/" + dd + "/" + yyyy) == Ok(Period(DigitsValue(yyyy), DigitsValue(mm)))
  {
    SlashFields(mm, dd, yyyy);
    ParseIntOfDigits(mm);
    ParseIntOfDigits(yyyy);
  }

  /** Fields free of "/" come back from the split as they were joined. */
  lemma SlashFields(mm: string, dd: string, yyyy: string)
    requires AllDigits(mm) && AllDigits(dd) && AllDigits(yyyy)
    ensures SplitOn(mm + "/" + dd + "/" + yyyy, "/") == [mm, dd, yyyy]
  {
    assert '/' !in mm by { assert forall i :: 0 <= i < |mm| ==> IsDigit(mm[i]); }
    assert '/' !in dd by { assert forall i :: 0 <= i < |dd| ==> IsDigit(dd[i]); }
    assert '/' !in yyyy by { assert forall i :: 0 <= i < |yyyy| ==> IsDigit(yyyy[i]); }
    var text := mm + "/" + dd + "/" + yyyy;
    assert text == mm + ['/'] + (dd + ['/'] + yyyy);
    SplitOnFirst(mm, '/', dd + ['/'] + yyyy);
    SplitOnFirst(dd, '/', yyyy);
    SplitOnAbsent(yyyy, '/');
  }
}
