/** The decision logic of the browser driver: the idempotent start/quit
    flag, the window-closing loop of `reset`, element lookup by position,
    and the page loop of `print_to_pdf`, which keeps downloading numbered
    print pages until one comes back (nearly) empty and then merges the
    kept pages in order.

    The browser itself is data: its window handles, the focused window, the
    current URL and its cookies. Page downloads are given as the sequence
    of sizes, in bytes, the print surface produces for pages 0, 1, 2, ...;
    a page past the end of that sequence never arrives, so the bounded wait
    for it expires.
 */
module Scd {
  import opened Base
  import opened Text

  datatype Browser = Browser(windows: seq<string>, focus: string, url: string, cookies: set<string>)

  /** `active` is the flag `start` and `quit` test; `launches` and `quits`
      count how often the underlying browser was really created and torn
      down. */
  datatype Driver = Driver(active: bool, launches: nat, quits: nat, browser: Browser)

  /** `start`: construct the browser (its initial state is `initial`) only
      when inactive, then mark the driver active. */
  function Start(d: Driver, initial: Browser): (r: Driver)
    ensures r.active
    ensures d.active ==> r == d
    ensures !d.active ==> r.launches == d.launches + 1 && r.quits == d.quits && r.browser == initial
  {
    if d.active then d else Driver(true, d.launches + 1, d.quits, initial)
  }

  /** `quit`: tear the browser down only when active, then clear the flag. */
  function Quit(d: Driver): (r: Driver)
    ensures !r.active
    ensures !d.active ==> r == d
    ensures d.active ==> r.quits == d.quits + 1 && r.launches == d.launches
  {
    if d.active then Driver(false, d.launches, d.quits + 1, d.browser) else d
  }

  /** Starting twice launches one browser; quitting twice tears down one. */
  lemma StartQuitIdempotent(d: Driver, initial: Browser, other: Browser)
    ensures Start(Start(d, initial), other) == Start(d, initial)
    ensures Quit(Quit(d)) == Quit(d)
    ensures Start(Start(d, initial), other).launches <= d.launches + 1
    ensures Quit(Start(d, initial)).quits == d.quits + 1
  {
  }

  // ---------------------------------------------------------------------
  // reset
  // ---------------------------------------------------------------------

  /** The windows `reset` closes, in closing order: while more than one
      window is open it switches to the last one and closes it. */
  function CloseExtraWindows(windows: seq<string>): (closed: seq<string>)
    ensures |closed| == Clamp0(|windows| - 1)
    ensures forall i :: 0 <= i < |closed| ==> closed[i] == windows[|windows| - 1 - i]
  {
    if |windows| <= 1 then []
    else [windows[|windows| - 1]] + CloseExtraWindows(windows[..|windows| - 1])
  }

  const NEW_TAB := "chrome://newtab"

  datatype ResetRun = ResetRun(closed: seq<string>, browser: Browser)

  /** `reset`: close windows from the last down to the first, switch to the
      first, open a new tab and clear every cookie. With no window at all the
      final `window_handles[0]` raises IndexError. */
  function Reset(b: Browser): (r: Result<ResetRun>)
    ensures r.Err? <==> |b.windows| == 0
    ensures r.Err? ==> r.error == IndexError
    ensures r.Ok? ==> r.value.browser.windows == [b.windows[0]] && r.value.browser.focus == b.windows[0]
    ensures r.Ok? ==> r.value.browser.url == NEW_TAB && r.value.browser.cookies == {}
    ensures r.Ok? ==> r.value.closed == Reverse(b.windows[1..])
  {
    if |b.windows| == 0 then Err(IndexError)
    else
      var closed := CloseExtraWindows(b.windows);
      Ok(ResetRun(closed, Browser([b.windows[0]], b.windows[0], NEW_TAB, {})))
  }

  function Reverse<T>(s: seq<T>): (r: seq<T>)
    ensures |r| == |s| && forall i :: 0 <= i < |s| ==> r[i] == s[|s| - 1 - i]
  {
    if |s| == 0 then [] else [s[|s| - 1]] + Reverse(s[..|s| - 1])
  }

  /** Every window but the first is closed exactly once, and resetting an
      already reset browser closes nothing. */
  lemma ResetClosesAllButFirst(b: Browser)
    requires |b.windows| >= 1
    ensures multiset(Reset(b).value.closed) == multiset(b.windows[1..])
    ensures Reset(Reset(b).value.browser).value.closed == []
  {
    ReverseMultiset(b.windows[1..]);
  }

  lemma {:induction false} ReverseMultiset<T>(s: seq<T>)
    ensures multiset(Reverse(s)) == multiset(s)
  {
    if |s| > 0 {
      ReverseMultiset(s[..|s| - 1]);
      assert s == s[..|s| - 1] + [s[|s| - 1]];
    }
  }

  // ---------------------------------------------------------------------
  // find
  // ---------------------------------------------------------------------

  /** `find(selector, idx)`: element `idx` of `find_all(selector)`, with
      Python's negative indexing; no such element raises IndexError. */
  function Find<T>(matches: seq<T>, idx: int := 0): (r: Result<T>)
    ensures r.Ok? <==> -|matches| <= idx < |matches|
    ensures r.Ok? ==> r.value in matches
    ensures r.Ok? && idx >= 0 ==> r.value == matches[idx]
    ensures r.Ok? && idx < 0 ==> r.value == matches[|matches| + idx]
    ensures r.Err? ==> r.error == IndexError
  {
    PyIndex(matches, idx)
  }

  /** A negative index counts from the end: `find(sel, -1 - i)` is element
      `i` of the matches in reverse order. */
  lemma FindFromEnd<T>(matches: seq<T>, i: int)
    requires i >= 0
    ensures Find(matches, -1 - i) == Find(Reverse(matches), i)
  {
    if 0 <= i < |matches| {
      assert Reverse(matches)[i] == matches[|matches| - 1 - i];
    }
  }

  // ---------------------------------------------------------------------
  // print_to_pdf: the page loop and the merge
  // ---------------------------------------------------------------------

  /** Pages of at most this many bytes count as empty and end the loop. */
  const PAGE_THRESHOLD: nat := 2000

  function PageUrl(pdfId: string, pageno: nat): string {
    "chrome://print/" + pdfId + "/" + NatToString(pageno) + "/print.pdf"
  }

  function PageFile(pageno: nat): string {
    "page" + NatToString(pageno) + ".pdf"
  }

  /** The URLs requested, the page files kept (renamed from `print.pdf`),
      and the number of the page that was deleted as empty. */
  datatype PageRun = PageRun(requests: seq<string>, kept: seq<string>, discarded: nat)

  /** The state of the loop after some iterations: one request per kept page,
      each kept page numbered by its position and larger than the threshold. */
  ghost predicate LoopState(pdfId: string, sizes: seq<nat>, requests: seq<string>, kept: seq<string>) {
    && |requests| == |kept| <= |sizes|
    && (forall i :: 0 <= i < |kept| ==> requests[i] == PageUrl(pdfId, i))
    && (forall i :: 0 <= i < |kept| ==> kept[i] == PageFile(i) && sizes[i] > PAGE_THRESHOLD)
  }

  function PaginateFrom(pdfId: string, sizes: seq<nat>, requests: seq<string>, kept: seq<string>): (r: Result<PageRun>)
    requires LoopState(pdfId, sizes, requests, kept)
    ensures r.Ok? <==> exists i :: |kept| <= i < |sizes| && sizes[i] <= PAGE_THRESHOLD
    ensures r.Err? ==> r.error == TimeoutError
    ensures r.Ok? ==> var n := |r.value.kept|;
      && n < |sizes| && sizes[n] <= PAGE_THRESHOLD && r.value.discarded == n
      && |r.value.requests| == n + 1
      && (forall i :: 0 <= i <= n ==> r.value.requests[i] == PageUrl(pdfId, i))
      && (forall i :: 0 <= i < n ==> r.value.kept[i] == PageFile(i) && sizes[i] > PAGE_THRESHOLD)
    decreases |sizes| - |kept|
  {
    var pageno := |kept|;
    var asked := requests + [PageUrl(pdfId, pageno)];
    if pageno >= |sizes| then Err(TimeoutError)
    else if sizes[pageno] > PAGE_THRESHOLD then
      PaginateFrom(pdfId, sizes, asked, kept + [PageFile(pageno)])
    else Ok(PageRun(asked, kept, pageno))
  }

  /** The page loop of `print_to_pdf`: request page `len(kept)`, keep it as
      `page{k}.pdf` if it is larger than the threshold, otherwise delete it
      and stop. The kept pages are exactly the longest prefix of pages over
      the threshold, in request order; if no page ever falls under the
      threshold, the wait for the next download times out. */
  function Paginate(pdfId: string, sizes: seq<nat>): (r: Result<PageRun>)
    ensures r.Ok? <==> exists i :: 0 <= i < |sizes| && sizes[i] <= PAGE_THRESHOLD
    ensures r.Err? ==> r.error == TimeoutError
    ensures r.Ok? ==> var n := |r.value.kept|;
      && n < |sizes| && sizes[n] <= PAGE_THRESHOLD && r.value.discarded == n
      && |r.value.requests| == n + 1
      && (forall i :: 0 <= i <= n ==> r.value.requests[i] == PageUrl(pdfId, i))
      && (forall i :: 0 <= i < n ==> r.value.kept[i] == PageFile(i) && sizes[i] > PAGE_THRESHOLD)
  {
    PaginateFrom(pdfId, sizes, [], [])
  }

  /** The kept page files are pairwise distinct: no page is merged twice. */
  lemma PagesDistinct(pdfId: string, sizes: seq<nat>)
    requires Paginate(pdfId, sizes).Ok?
    ensures var kept := Paginate(pdfId, sizes).value.kept;
      forall i, j :: 0 <= i < j < |kept| ==> kept[i] != kept[j]
  {
    var kept := Paginate(pdfId, sizes).value.kept;
    forall i, j | 0 <= i < j < |kept|
      ensures kept[i] != kept[j]
    {
      if kept[i] == kept[j] {
        var a := NatToString(i);
        var b := NatToString(j);
        assert kept[i][4..|kept[i]| - 4] == a;
        assert kept[j][4..|kept[j]| - 4] == b;
        NatToStringInjective(i, j);
      }
    }
  }

  /** The file operations of the merge. */
  datatype FileOp = Append(file: string) | Unlink(file: string)

  /** The merge loop: append each kept page to the merger, then delete it. */
  function MergeOps(kept: seq<string>): (ops: seq<FileOp>)
    ensures |ops| == 2 * |kept|
    ensures forall i :: 0 <= i < |kept| ==> ops[2 * i] == Append(kept[i]) && ops[2 * i + 1] == Unlink(kept[i])
  {
    if |kept| == 0 then []
    else [Append(kept[0]), Unlink(kept[0])] + MergeOps(kept[1..])
  }

  /** The merged document: the appended pages, in the order appended. */
  function Document(ops: seq<FileOp>): seq<string> {
    if |ops| == 0 then []
    else (if ops[0].Append? then [ops[0].file] else []) + Document(ops[1..])
  }

  /** Merging keeps the kept order exactly, and every page file is deleted
      only after it has been appended. */
  lemma {:induction false} MergePreservesOrder(kept: seq<string>)
    ensures Document(MergeOps(kept)) == kept
    ensures forall i :: 0 <= i < |MergeOps(kept)| && MergeOps(kept)[i].Unlink? ==>
      i > 0 && MergeOps(kept)[i - 1] == Append(MergeOps(kept)[i].file)
  {
    if |kept| > 0 {
      var ops := MergeOps(kept);
      MergePreservesOrder(kept[1..]);
      assert ops[2..] == MergeOps(kept[1..]);
      assert ops[1..][1..] == ops[2..];
      assert [kept[0]] + kept[1..] == kept;
      forall i | 0 <= i < |ops| && ops[i].Unlink?
        ensures i > 0 && ops[i - 1] == Append(ops[i].file)
      {
        if i >= 2 {
          assert ops[i] == MergeOps(kept[1..])[i - 2];
        }
      }
    }
  }
}
