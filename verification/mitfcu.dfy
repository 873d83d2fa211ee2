/** MITFCU (`MITFCU`): the document ids read from the e-statement
    viewer's hitlist, page by page, and the outcome of every requested
    statement, fetched as CSV from a download URL or printed to PDF from a
    viewer URL.

    The hitlist is data: the hit links shown on each page, in order. Moving
    past the last page shows the last page again.
 */
module Mitfcu {
  import opened Base
  import opened Text
  import opened StatementDates
  import opened Library
  import opened Requests

  const PULL_FMTS: set<string> := {"csv", "pdf"}

  const CSV_URL_HEAD: string :=
    "https://estatements.cowww.com/cowww/DocumentServer/XmlStatementDownload?AppID=585&DocumentID="
  const PRINT_URL_HEAD: string :=
    "https://estatements.cowww.com/cowww/DocumentServer/ViewDoc?AppID=585&DocumentID="

  // ---------------------------------------------------------------------
  // URL templates
  // ---------------------------------------------------------------------

  /** `CSV_URL` filled in with a document id, sub-account and description. */
  function CsvUrl(docid: string, sub: string, desc: string): string {
    CSV_URL_HEAD + docid + "&AppViewerID=1939&SubAccount=" + sub + "&Style=CSV&Description=" + desc
  }

  /** `PRINT_URL` filled in; the document id appears twice, as the document
      and as the primary key. */
  function PrintUrl(docid: string, sub: string, desc: string): string {
    PRINT_URL_HEAD + docid + "&PrimaryKey=" + docid + "&AppViewerID=1939&SubAccountID=" + sub
      + "&SubAccountDescription=" + desc + "&DownloadLink=0&PrintMode=single"
  }

  /** Both URLs carry the document id right after their fixed head, and the
      print URL carries it again as the primary key. */
  lemma UrlsCarryDocId(docid: string, sub: string, desc: string)
    ensures var u := CsvUrl(docid, sub, desc);
      |u| >= |CSV_URL_HEAD| + |docid| && u[|CSV_URL_HEAD|..|CSV_URL_HEAD| + |docid|] == docid
    ensures var u, n := PrintUrl(docid, sub, desc), |PRINT_URL_HEAD| + |docid|;
      |u| >= n + 12 + |docid| && u[|PRINT_URL_HEAD|..n] == docid
      && u[n..n + 12] == "&PrimaryKey=" && u[n + 12..n + 12 + |docid|] == docid
  {
    var csvTail := "&AppViewerID=1939&SubAccount=" + sub + "&Style=CSV&Description=" + desc;
    assert CsvUrl(docid, sub, desc) == CSV_URL_HEAD + docid + csvTail;
    Framed(CSV_URL_HEAD, docid, csvTail);
    var printTail := "&AppViewerID=1939&SubAccountID=" + sub + "&SubAccountDescription=" + desc
      + "&DownloadLink=0&PrintMode=single";
    assert PrintUrl(docid, sub, desc) == PRINT_URL_HEAD + docid + "&PrimaryKey=" + docid + printTail;
    Framed(PRINT_URL_HEAD, docid, "&PrimaryKey=" + docid + printTail);
    Framed(PRINT_URL_HEAD + docid, "&PrimaryKey=", docid + printTail);
    Framed(PRINT_URL_HEAD + docid + "&PrimaryKey=", docid, printTail);
  }

  /** The middle of a concatenation of three strings. */
  lemma Framed(head: string, mid: string, tail: string)
    ensures (head + mid + tail)[|head|..|head| + |mid|] == mid
    ensures head + (mid + tail) == head + mid + tail
  {
  }

  /** With the same sub-account and description, two document ids give
      the same URL exactly when they are equal: a statement is never
      fetched with another's id. Ids of different lengths (a short href
      gives a short id) already give URLs of different lengths. */
  lemma UrlsDistinguishDocuments(d1: string, d2: string, sub: string, desc: string)
    ensures CsvUrl(d1, sub, desc) == CsvUrl(d2, sub, desc) <==> d1 == d2
    ensures PrintUrl(d1, sub, desc) == PrintUrl(d2, sub, desc) <==> d1 == d2
  {
    UrlsCarryDocId(d1, sub, desc);
    UrlsCarryDocId(d2, sub, desc);
    assert |CsvUrl(d1, sub, desc)| - |CsvUrl(d2, sub, desc)| == |d1| - |d2|;
    assert |PrintUrl(d1, sub, desc)| - |PrintUrl(d2, sub, desc)| == 2 * (|d1| - |d2|);
  }

  // ---------------------------------------------------------------------
  // The hitlist
  // ---------------------------------------------------------------------

  /** `href[-8:-1]`: the document id in a hit's href, the seven characters
      before the last one. */
  function DocId(href: string): (d: string)
    ensures |d| <= 7
    ensures |href| >= 8 ==> d == href[|href| - 8..|href| - 1]
  {
    PySlice(href, -8, -1)
  }

  /** A hit: its `mm/dd/yyyy` text gives the period (any other shape raises
      ValueError) and its href the document id. */
  function HitEntry(l: Link): (r: Result<(int, string)>)
    ensures r.Ok? <==> SlashPeriod(l.text).Ok?
    ensures r.Ok? ==> r.value == (SlashPeriod(l.text).value.Ym(), DocId(l.href))
    ensures r.Err? ==> r.error == ValueError
  {
    match SlashPeriod(l.text)
    case Err(e) => Err(e)
    case Ok(p) => Ok((p.Ym(), DocId(l.href)))
  }

  /** What one pass reads from the page it shows: waiting for a clickable
      hit times out on an empty page; otherwise each hit's period maps to its
      document id, a later hit for a period replacing an earlier one, and one
      unreadable text raises ValueError. */
  function PageMap(page: seq<Link>): (r: Result<map<int, string>>)
    ensures r.Err? ==> r.error == TimeoutError || r.error == ValueError
    ensures r == Err(TimeoutError) <==> |page| == 0
  {
    if |page| == 0 then Err(TimeoutError)
    else
      var r := IndexAll(page, HitEntry);
      assert r.Err? ==> exists i :: 0 <= i < |page| && HitEntry(page[i]) == Err(r.error);
      r
  }

  /** A pass succeeds exactly when its page has hits and every hit's text
      reads as a date, and then it knows exactly the periods of its hits,
      each with the document id of the last hit for it. */
  lemma PageMapContents(page: seq<Link>)
    ensures var r := PageMap(page);
      && (r.Ok? <==> |page| > 0 && forall i :: 0 <= i < |page| ==> SlashPeriod(page[i].text).Ok?)
      && (r.Ok? ==> forall k :: k in r.value <==>
            exists i :: 0 <= i < |page| && SlashPeriod(page[i].text).value.Ym() == k)
  {
  }

  /** What each page of the hitlist reads. */
  function Reads(pages: seq<seq<Link>>): (r: seq<Result<map<int, string>>>)
    ensures |r| == |pages|
    ensures forall i :: 0 <= i < |pages| ==> r[i] == PageMap(pages[i])
  {
    if |pages| == 0 then [] else [PageMap(pages[0])] + Reads(pages[1..])
  }

  /** What each pass of the loop reads, one pass more than there are
      pages: moving past the last page stays on it. */
  function Passes(pages: seq<seq<Link>>): (r: seq<Result<map<int, string>>>)
    requires |pages| >= 1
    ensures |r| == |pages| + 1
    ensures forall t :: 0 <= t < |r| ==> r[t] == PageMap(pages[if t < |pages| then t else |pages| - 1])
  {
    Reads(pages) + [PageMap(pages[|pages| - 1])]
  }

  /** The last pass reads the same page as the one before it. */
  predicate EndsRepeating(passes: seq<Result<map<int, string>>>) {
    |passes| >= 2 && passes[|passes| - 1] == passes[|passes| - 2]
  }

  /** `docids[sd] = ...` for each hit of a pass, on top of what was known;
      the first error stops the loop. */
  function AddPass(known: Result<map<int, string>>, pass: Result<map<int, string>>): Result<map<int, string>> {
    if known.Err? then known
    else if pass.Err? then pass
    else Ok(known.value + pass.value)
  }

  /** The `docids` dict after the first `t` passes, each adding what it read
      to what was known: the reference the hitlist loop is measured
      against. */
  function Known(passes: seq<Result<map<int, string>>>, t: nat): Result<map<int, string>>
    requires t <= |passes|
  {
    if t == 0 then Ok(map[]) else AddPass(Known(passes, t - 1), passes[t - 1])
  }

  /** Pass `t` (counting from 1) found a period not known before it. */
  predicate Grew(passes: seq<Result<map<int, string>>>, t: nat)
    requires 1 <= t <= |passes|
  {
    Known(passes, t - 1).Ok? && Known(passes, t).Ok? && |Known(passes, t).value| > |Known(passes, t - 1).value|
  }

  /** A subset is no larger. */
  lemma {:induction false} SubsetCard<T>(a: set<T>, b: set<T>)
    requires a <= b
    ensures |a| <= |b|
    decreases |b|
  {
    if a != {} {
      var x :| x in a;
      SubsetCard(a - {x}, b - {x});
    }
  }

  /** A union is as large as one of its halves exactly when the other half
      adds nothing. */
  lemma UnionSize<T>(a: set<T>, b: set<T>)
    ensures |a + b| >= |a|
    ensures |a + b| == |a| <==> b <= a
  {
    SubsetCard(a, a + b);
    if b <= a {
      assert a + b == a;
    } else {
      var x :| x in b && x !in a;
      assert a <= a + b - {x};
      SubsetCard(a, a + b - {x});
    }
  }

  /** Adding a pass's dict to what is known keeps every period, old and
      new. */
  lemma MergeKeys(docids: map<int, string>, m: map<int, string>)
    ensures (docids + m).Keys == docids.Keys + m.Keys
  {
  }

  /** Adding a pass's dict to what is known keeps the count exactly when it
      brings no new period. */
  lemma MergeSize(docids: map<int, string>, m: map<int, string>)
    ensures |docids + m| >= |docids|
    ensures |docids + m| == |docids| <==> m.Keys <= docids.Keys
  {
    assert (docids + m).Keys == docids.Keys + m.Keys;
    UnionSize(docids.Keys, m.Keys);
  }

  /** The loop started at pass `pass` stops after pass `n` with `r`: the
      first pass after `pass` that raised, or that found no new period,
      every pass before it having grown the dict. */
  ghost predicate StopsAt(passes: seq<Result<map<int, string>>>, pass: nat, n: nat, r: Result<map<int, string>>) {
    && pass < n <= |passes|
    && Known(passes, n) == r
    && (forall t :: pass < t < n ==> Grew(passes, t))
    && (r.Ok? ==> !Grew(passes, n))
  }

  /** The hitlist loop from pass `pass`, knowing `docids`: read a page; stop
      when it raised or added no period, otherwise move to the next page. It
      returns the dict (or the error raised) and the number of passes made.
      The loop ends: the last pass repeats a page already read, so adds
      nothing. */
  function HitlistFrom(passes: seq<Result<map<int, string>>>, pass: nat, docids: map<int, string>): (r: (Result<map<int, string>>, nat))
    requires pass < |passes| && EndsRepeating(passes)
    requires pass == |passes| - 1 ==> passes[pass].Ok? && passes[pass].value.Keys <= docids.Keys
    ensures pass < r.1 <= |passes|
    decreases |passes| - pass
  {
    var step := passes[pass];
    if step.Err? then
      (step, pass + 1)
    else
      var next := docids + step.value;
      if |next| == |docids| then
        (Ok(next), pass + 1)
      else
        CanContinue(passes, pass, docids);
        HitlistFrom(passes, pass + 1, next)
  }

  /** After a pass that grew the dict there is a next pass, and if it is the
      last one it repeats a page already read. */
  lemma CanContinue(passes: seq<Result<map<int, string>>>, pass: nat, docids: map<int, string>)
    requires pass < |passes| && EndsRepeating(passes)
    requires pass == |passes| - 1 ==> passes[pass].Ok? && passes[pass].value.Keys <= docids.Keys
    requires passes[pass].Ok? && |docids + passes[pass].value| != |docids|
    ensures pass + 1 < |passes|
    ensures pass + 1 == |passes| - 1 ==>
      passes[pass + 1].Ok? && passes[pass + 1].value.Keys <= (docids + passes[pass].value).Keys
  {
    var m := passes[pass].value;
    if pass == |passes| - 1 {
      MergeSize(docids, m);
      assert false;
    }
    if pass + 1 == |passes| - 1 {
      assert passes[pass + 1] == passes[pass];
      MergeKeys(docids, m);
    }
  }

  /** A pass that grew the dict lets the loop go on: where the loop from
      the next pass stops, the loop from this one stops too. */
  lemma StopsAtAfterGrowth(passes: seq<Result<map<int, string>>>, pass: nat, n: nat, r: Result<map<int, string>>)
    requires pass < |passes|
    requires Grew(passes, pass + 1) && StopsAt(passes, pass + 1, n, r)
    ensures StopsAt(passes, pass, n, r)
  {
  }

  /** A pass that raised, or found no new period, ends the loop right
      after it. */
  lemma StopsAtNextPass(passes: seq<Result<map<int, string>>>, pass: nat, docids: map<int, string>)
    requires pass < |passes|
    requires Known(passes, pass) == Ok(docids)
    requires passes[pass].Ok? ==> |docids + passes[pass].value| == |docids|
    ensures StopsAt(passes, pass, pass + 1, AddPass(Ok(docids), passes[pass]))
  {
    assert Known(passes, pass + 1) == AddPass(Ok(docids), passes[pass]);
  }

  /** A pass that grew the dict: the loop goes on to the next pass, which
      exists, knowing what that pass knows. */
  lemma GrowthStep(passes: seq<Result<map<int, string>>>, pass: nat, docids: map<int, string>)
    requires pass < |passes| && EndsRepeating(passes)
    requires pass == |passes| - 1 ==> passes[pass].Ok? && passes[pass].value.Keys <= docids.Keys
    requires Known(passes, pass) == Ok(docids)
    requires passes[pass].Ok? && |docids + passes[pass].value| != |docids|
    ensures pass + 1 < |passes|
    ensures pass + 1 == |passes| - 1 ==>
      passes[pass + 1].Ok? && passes[pass + 1].value.Keys <= (docids + passes[pass].value).Keys
    ensures Known(passes, pass + 1) == Ok(docids + passes[pass].value)
    ensures Grew(passes, pass + 1)
    ensures HitlistFrom(passes, pass, docids) == HitlistFrom(passes, pass + 1, docids + passes[pass].value)
  {
    var step := passes[pass];
    var next := docids + step.value;
    CanContinue(passes, pass, docids);
    MergeSize(docids, step.value);
    assert Known(passes, pass + 1) == Ok(next);
  }

  /** Started on what pass `pass` knows, the loop stops as `StopsAt` says. */
  lemma {:induction false} HitlistFromStops(passes: seq<Result<map<int, string>>>, pass: nat, docids: map<int, string>)
    requires pass < |passes| && EndsRepeating(passes)
    requires pass == |passes| - 1 ==> passes[pass].Ok? && passes[pass].value.Keys <= docids.Keys
    requires Known(passes, pass) == Ok(docids)
    ensures StopsAt(passes, pass, HitlistFrom(passes, pass, docids).1, HitlistFrom(passes, pass, docids).0)
    decreases |passes| - pass
  {
    var step := passes[pass];
    if step.Err? || |docids + step.value| == |docids| {
      assert HitlistFrom(passes, pass, docids) == (AddPass(Ok(docids), step), pass + 1);
      StopsAtNextPass(passes, pass, docids);
    } else {
      var next := docids + step.value;
      GrowthStep(passes, pass, docids);
      HitlistFromStops(passes, pass + 1, next);
      var r := HitlistFrom(passes, pass + 1, next);
      StopsAtAfterGrowth(passes, pass, r.1, r.0);
    }
  }

  /** The hitlist loop of `do_pull`: with no page at all, waiting for a hit
      times out. Otherwise the loop stops at the first pass `n` that raised
      or found no new period, every earlier pass having grown the dict, and
      returns what was known after it. So the result is determined by the
      pages, and the loop never makes more passes than one past the last
      page. */
  function Hitlist(pages: seq<seq<Link>>): (r: Result<map<int, string>>)
    ensures |pages| == 0 ==> r == Err(TimeoutError)
    ensures |pages| >= 1 ==> exists n :: StopsAt(Passes(pages), 0, n, r)
  {
    if |pages| == 0 then Err(TimeoutError)
    else
      var passes := Passes(pages);
      HitlistFromStops(passes, 0, map[]);
      HitlistFrom(passes, 0, map[]).0
  }

  /** Later passes never lose a period: what pass `t` knows includes what
      every earlier pass knew. */
  lemma {:induction false} KnownGrowsMonotonically(passes: seq<Result<map<int, string>>>, s: nat, t: nat)
    requires s <= t <= |passes| && Known(passes, t).Ok?
    ensures Known(passes, s).Ok? && Known(passes, s).value.Keys <= Known(passes, t).value.Keys
    decreases t - s
  {
    if s < t {
      KnownStep(passes, t);
      KnownGrowsMonotonically(passes, s, t - 1);
      var a, b, c := Known(passes, s).value.Keys, Known(passes, t - 1).value.Keys, Known(passes, t).value.Keys;
      assert a <= b <= c;
    }
  }

  /** One pass never loses a period. */
  lemma KnownStep(passes: seq<Result<map<int, string>>>, t: nat)
    requires 1 <= t <= |passes| && Known(passes, t).Ok?
    ensures Known(passes, t - 1).Ok? && Known(passes, t - 1).value.Keys <= Known(passes, t).value.Keys
  {
  }

  // ---------------------------------------------------------------------
  // The request loop
  // ---------------------------------------------------------------------

  /** How one request turns out: a period the hitlist does not list fails; a
      CSV downloads from the CSV URL, a PDF prints the viewer URL, both with
      the period's document id; any other format fails. */
  function Decide(docids: map<int, string>, sub: string, desc: string, k: int, f: string): (e: Event)
    ensures e.ym == k && e.fmt == f
    ensures e.Failed? <==> k !in docids || f !in PULL_FMTS
  {
    if k !in docids then Failed(k, f)
    else if f == "csv" then Pulled(k, f, Download(CsvUrl(docids[k], sub, desc)))
    else if f == "pdf" then Pulled(k, f, Printed(PrintUrl(docids[k], sub, desc)))
    else Failed(k, f)
  }

  /** The outcome of the request loop against the hitlist's `docids`. */
  ghost predicate Outcome(statements: Lib, docids: map<int, string>, sub: string, desc: string, log: seq<Event>) {
    && (forall e :: e in log ==> HasFormat(statements, e.ym, e.fmt))
    && (forall k, f :: Failed(k, f) in log <==> HasFormat(statements, k, f) && (k !in docids || f !in PULL_FMTS))
    && (forall k :: HasFormat(statements, k, "csv") && k in docids ==>
          Pulled(k, "csv", Download(CsvUrl(docids[k], sub, desc))) in log)
    && (forall k :: HasFormat(statements, k, "pdf") && k in docids ==>
          Pulled(k, "pdf", Printed(PrintUrl(docids[k], sub, desc))) in log)
    && (forall e :: e in log && e.Pulled? ==> e.ym in docids && e.fmt in PULL_FMTS)
    && OneEventPerRequest(log)
  }

  /** The request loop: every requested (period, format) gets its outcome. */
  method Outcomes(statements: Lib, docids: map<int, string>, sub: string, desc: string) returns (log: seq<Event>)
    ensures Outcome(statements, docids, sub, desc, log)
  {
    var decide := (k: int, f: string) => Decide(docids, sub, desc, k, f);
    log := ForEachRequest(statements, decide);
    forall k, f | Failed(k, f) in log
      ensures k !in docids || f !in PULL_FMTS
    {
      assert Failed(k, f) == decide(k, f);
    }
    forall k, f | HasFormat(statements, k, f) && (k !in docids || f !in PULL_FMTS)
      ensures Failed(k, f) in log
    {
      assert decide(k, f) == Failed(k, f);
    }
  }

  /** `do_pull` after login, with the alert accepted as evidently intended
      (see `DoPullAsWritten`): read the hitlist, then run the request loop;
      an error while reading the hitlist ends the pull before any statement. */
  method DoPull(statements: Lib, pages: seq<seq<Link>>, sub: string, desc: string) returns (run: PullRun)
    ensures run.abort.Some? <==> Hitlist(pages).Err?
    ensures run.abort.Some? ==> run == PullRun([], Some(Hitlist(pages).error))
    ensures run.abort.None? ==> Outcome(statements, Hitlist(pages).value, sub, desc, run.log)
  {
    var hits := Hitlist(pages);
    if hits.Err? {
      return PullRun([], Some(hits.error));
    }
    var log := Outcomes(statements, hits.value, sub, desc);
    run := PullRun(log, None);
  }

  /** `do_pull` as the source writes it: right after login it calls
      `scd.accept_alert()`, which the driver does not define, so every pull
      ends with AttributeError before the hitlist is read. */
  method DoPullAsWritten(statements: Lib, pages: seq<seq<Link>>, sub: string, desc: string) returns (run: PullRun)
    ensures run.abort == Some(AttributeError)
    ensures forall e :: e !in run.log
  {
    run := PullRun([], Some(AttributeError));
  }

  /** The corrected pull records an event for every requested format once
      the hitlist is read; the pull as written records none, so the two
      differ for every non-empty request with a readable hitlist. */
  lemma OutcomeCoversRequests(statements: Lib, docids: map<int, string>, sub: string, desc: string,
                              log: seq<Event>, k: int, f: string)
    requires Outcome(statements, docids, sub, desc, log)
    requires HasFormat(statements, k, f)
    ensures exists e :: e in log && e.ym == k && e.fmt == f
  {
    if k !in docids || f !in PULL_FMTS {
      assert Failed(k, f) in log;
    } else if f == "csv" {
      assert Pulled(k, "csv", Download(CsvUrl(docids[k], sub, desc))) in log;
    } else {
      assert f == "pdf";
      assert Pulled(k, "pdf", Printed(PrintUrl(docids[k], sub, desc))) in log;
    }
  }
}
