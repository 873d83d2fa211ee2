/** The account template (`Account`): construction with its library index
    and ignore map, the statement periods an account should have, the
    missing formats of each, and the guard and order of a pull session.

    "Today", the opening date and the library directory are parameters; the
    concrete institutions enter only through the formats they pull.
 */
module Accounts {
  import opened Base
  import opened StatementDates
  import opened Library
  import Scd
  import Boa
  import Mitfcu
  import MitfcuVisa
  import UsbankVisa

  /** The concrete account classes. */
  datatype Kind = BoAChecking | BoAVisa | MITFCU | MITFCUVisa | USBankVisa

  /** `PULL_FMTS` of each concrete class. */
  function PullFmts(kind: Kind): set<string> {
    match kind
    case BoAChecking => Boa.PullFmts(Boa.Checking)
    case BoAVisa => Boa.PullFmts(Boa.Visa)
    case MITFCU => Mitfcu.PULL_FMTS
    case MITFCUVisa => MitfcuVisa.PULL_FMTS
    case USBankVisa => UsbankVisa.PULL_FMTS
  }

  datatype Account = Account(
    name: string,
    kind: Kind,
    credName: string,
    openDate: Date,
    statementDay: int,
    active: bool,
    archive: Archive,
    ignore: Lib)

  // ---------------------------------------------------------------------
  // Construction
  // ---------------------------------------------------------------------

  /** `Account.__init__`: the statement day defaults to 1, the account is
      active unless told otherwise, and the credential name defaults to the
      account name; the library index is built by scanning the library
      directory; the ignore map is built from the configured entries, if
      any, and the first entry whose date `from_iso` rejects aborts
      construction with that error. */
  method NewAccount(name: string, kind: Kind, openDate: Date, disk: Disk, statementDay: int := 1,
                    active: bool := true, credName: Option<string> := None,
                    ignore: Option<seq<IgnoreEntry>> := None)
    returns (r: Result<Account>)
    ensures var entries := if ignore.Some? then ignore.value else [];
      r.Ok? <==> BuildIgnore(PullFmts(kind), entries).Ok?
    ensures ignore.Some? && r.Err? ==>
      exists i :: 0 <= i < |ignore.value| && FromIso(ignore.value[i].iso) == Err(r.error)
                  && forall j :: 0 <= j < i ==> FromIso(ignore.value[j].iso).Ok?
    ensures r.Ok? ==> r.value.credName == (if credName.Some? then credName.value else name)
    ensures r.Ok? ==> r.value.archive.disk == disk && InSync(name, r.value.archive)
    ensures r.Ok? && ignore.None? ==> r.value.ignore == map[]
    ensures r.Ok? && ignore.Some? ==> r.value.ignore == BuildIgnore(PullFmts(kind), ignore.value).value
    ensures r.Ok? ==> r.value.name == name && r.value.kind == kind && r.value.openDate == openDate
                      && r.value.statementDay == statementDay && r.value.active == active
  {
    var cred := if credName.Some? then credName.value else name;
    var lib := BuildLibrary(name, disk);
    var entries := if ignore.Some? then ignore.value else [];
    var ign := BuildIgnore(PullFmts(kind), entries);
    if ign.Err? {
      return Err(ign.error);
    }
    assert ignore.None? ==> ign.value == map[];
    r := Ok(Account(name, kind, cred, openDate, statementDay, active, Archive(lib, disk), ign.value));
  }

  // ---------------------------------------------------------------------
  // gen_statement_dates
  // ---------------------------------------------------------------------

  /** The first period: the month after opening, or the opening month itself
      when the account opened before its statement day. */
  function FirstYm(openDate: Date, statementDay: int): int {
    FromDate(openDate).Ym() + 1 - (if openDate.day < statementDay then 1 else 0)
  }

  /** One past the last period: today's month, or the next one once today is
      past the statement day. */
  function EndYm(today: Date, statementDay: int): int {
    FromDate(today).Ym() + (if today.day > statementDay then 1 else 0)
  }

  /** `gen_statement_dates`: one period per month from the first to the
      last, in order. */
  function GenStatementDates(openDate: Date, today: Date, statementDay: int): (r: seq<Period>)
    ensures |r| == Clamp0(EndYm(today, statementDay) - FirstYm(openDate, statementDay))
    ensures forall i :: 0 <= i < |r| ==> ValidMonth(r[i]) && r[i].Ym() == FirstYm(openDate, statementDay) + i
  {
    var first, end := FirstYm(openDate, statementDay), EndYm(today, statementDay);
    var r := seq(Clamp0(end - first), i => FromYm(first + i));
    assert forall i :: 0 <= i < |r| ==> r[i] == FromYm(first + i);
    r
  }

  /** The generated periods are strictly increasing and consecutive, and a
      well-formed period is generated exactly when it lies in the window; in
      particular nothing is generated when the bounds cross. */
  lemma GeneratedWindow(openDate: Date, today: Date, statementDay: int)
    ensures var r := GenStatementDates(openDate, today, statementDay);
      forall i, j :: 0 <= i < j < |r| ==> Before(r[i], r[j])
    ensures var r := GenStatementDates(openDate, today, statementDay);
      forall i :: 0 <= i < |r| - 1 ==> r[i + 1].Ym() == r[i].Ym() + 1
    ensures forall p :: ValidMonth(p) ==>
      (p in GenStatementDates(openDate, today, statementDay) <==>
         FirstYm(openDate, statementDay) <= p.Ym() < EndYm(today, statementDay))
    ensures GenStatementDates(openDate, today, statementDay) == [] <==>
      EndYm(today, statementDay) <= FirstYm(openDate, statementDay)
  {
    var r := GenStatementDates(openDate, today, statementDay);
    var first := FirstYm(openDate, statementDay);
    forall p | ValidMonth(p) && first <= p.Ym() < EndYm(today, statementDay)
      ensures p in r
    {
      var i := p.Ym() - first;
      SameIsEqualForValidMonths(p, r[i]);
    }
  }

  /** The statement-day rule at both ends: the opening month is generated
      only when the account opened strictly before the statement day, and
      today's month only when today is strictly after it, so a day equal to
      the statement day excludes the month at both ends. */
  lemma StatementDayBoundaries(openDate: Date, today: Date, statementDay: int)
    requires ValidDate(openDate) && ValidDate(today)
    requires FromDate(openDate).Ym() < FromDate(today).Ym()
    ensures FromDate(openDate) in GenStatementDates(openDate, today, statementDay) <==> openDate.day < statementDay
    ensures FromDate(today) in GenStatementDates(openDate, today, statementDay) <==> today.day > statementDay
  {
    GeneratedWindow(openDate, today, statementDay);
    assert ValidMonth(FromDate(openDate)) && ValidMonth(FromDate(today));
  }

  // ---------------------------------------------------------------------
  // missing_statements
  // ---------------------------------------------------------------------

  /** A format of period `k` is missing: the account pulls it, and it is
      neither in the library nor ignored. */
  predicate Missing(acct: Account, k: int, f: string) {
    f in PullFmts(acct.kind) && !HasFormat(acct.archive.lib, k, f) && !HasFormat(acct.ignore, k, f)
  }

  /** The window of periods the account should have on `today`. */
  predicate Expected(acct: Account, today: Date, k: int) {
    FirstYm(acct.openDate, acct.statementDay) <= k < EndYm(today, acct.statementDay)
  }

  /** `missing_statements`: nothing for an inactive account; otherwise, for
      every generated period with a missing format, the set of its missing
      formats. A format is listed exactly when its period is expected and
      the format is missing, and no listed set is empty. */
  method MissingStatements(acct: Account, today: Date) returns (missing: Lib)
    ensures !acct.active ==> missing == map[]
    ensures forall k, f :: HasFormat(missing, k, f) <==> acct.active && Expected(acct, today, k) && Missing(acct, k, f)
    ensures forall k :: k in missing ==> missing[k] != {} && Expected(acct, today, k)
  {
    missing := map[];
    if !acct.active {
      return;
    }
    var dates := GenStatementDates(acct.openDate, today, acct.statementDay);
    var first := FirstYm(acct.openDate, acct.statementDay);
    var i := 0;
    while i < |dates|
      invariant 0 <= i <= |dates|
      invariant forall k :: k in missing ==> first <= k < first + i && missing[k] != {}
      invariant forall k, f :: HasFormat(missing, k, f) <==> first <= k < first + i && Missing(acct, k, f)
    {
      var k := dates[i].Ym();
      var fmts := PullFmts(acct.kind) - Get(acct.archive.lib, k) - Get(acct.ignore, k);
      if fmts != {} {
        missing := missing[k := fmts];
      }
      i := i + 1;
    }
  }

  // ---------------------------------------------------------------------
  // pull
  // ---------------------------------------------------------------------

  /** What a pull session does, in order. */
  datatype Step =
    | FetchCredential(credName: string)
    | StartDriver
    | ResetDriver
    | RunDoPull(statements: Lib, current: bool)

  /** `pull`: nothing for an inactive account, nor when there is nothing to
      pull and no current transactions are wanted; otherwise the credential
      is fetched, the driver started and reset, and `do_pull` run. */
  function PullSteps(acct: Account, statements: Lib, pullCurrent: bool): (steps: seq<Step>)
    ensures steps == [] <==> !acct.active || (statements == map[] && !pullCurrent)
    ensures steps != [] ==> |steps| == 4 && steps[3] == RunDoPull(statements, pullCurrent)
  {
    if !acct.active || (statements == map[] && !pullCurrent) then []
    else [FetchCredential(acct.credName), StartDriver, ResetDriver, RunDoPull(statements, pullCurrent)]
  }

  /** The driver steps of a session applied to `d`: `start` (building
      `initial` if the driver is not yet active) and `reset`; credential
      lookup and `do_pull` leave the driver as it is. */
  function Drive(d: Scd.Driver, steps: seq<Step>, initial: Scd.Browser): Result<Scd.Driver>
    decreases |steps|
  {
    if steps == [] then Ok(d)
    else
      match steps[0]
      case StartDriver => Drive(Scd.Start(d, initial), steps[1..], initial)
      case ResetDriver =>
        (match Scd.Reset(d.browser)
         case Err(e) => Err(e)
         case Ok(run) => Drive(d.(browser := run.browser), steps[1..], initial))
      case _ => Drive(d, steps[1..], initial)
  }

  /** A session that does anything fetches the credential before touching
      the driver, and hands `do_pull` an active driver with a single window
      on a new tab and no cookies, having launched a browser only if none was
      running. A session that does nothing leaves the driver untouched. */
  lemma PullPreparesDriver(acct: Account, statements: Lib, pullCurrent: bool, d: Scd.Driver, initial: Scd.Browser)
    requires d.active ==> |d.browser.windows| >= 1
    requires |initial.windows| >= 1
    ensures var steps := PullSteps(acct, statements, pullCurrent);
      steps == [] ==> Drive(d, steps, initial) == Ok(d)
    ensures var steps := PullSteps(acct, statements, pullCurrent);
      steps != [] ==>
        && steps[0] == FetchCredential(acct.credName)
        && Drive(d, steps, initial).Ok?
        && Drive(d, steps, initial).value.active
        && |Drive(d, steps, initial).value.browser.windows| == 1
        && Drive(d, steps, initial).value.browser.url == Scd.NEW_TAB
        && Drive(d, steps, initial).value.browser.cookies == {}
        && Drive(d, steps, initial).value.launches == d.launches + (if d.active then 0 else 1)
  {
    var steps := PullSteps(acct, statements, pullCurrent);
    if steps != [] {
      var started := Scd.Start(d, initial);
      assert |started.browser.windows| >= 1;
      var run := Scd.Reset(started.browser);
      assert steps[1..] == [StartDriver, ResetDriver, RunDoPull(statements, pullCurrent)];
      assert steps[2..] == [ResetDriver, RunDoPull(statements, pullCurrent)];
      assert steps[3..] == [RunDoPull(statements, pullCurrent)];
      var ready := started.(browser := run.value.browser);
      assert Drive(ready, steps[3..], initial) == Ok(ready);
      assert Drive(started, steps[2..], initial) == Ok(ready);
      assert Drive(d, steps[1..], initial) == Ok(ready);
    }
  }

  /** `pull_missing`: a session over the missing statements, which does
      nothing unless the account is active and something is missing. */
  method PullMissing(acct: Account, today: Date) returns (steps: seq<Step>)
    ensures steps == [] <==> !acct.active || forall k, f :: !(Expected(acct, today, k) && Missing(acct, k, f))
    ensures steps != [] ==> |steps| == 4 && steps[3].RunDoPull? && !steps[3].current
    ensures steps != [] ==>
      forall k, f :: HasFormat(steps[3].statements, k, f) <==> Expected(acct, today, k) && Missing(acct, k, f)
  {
    var ms := MissingStatements(acct, today);
    steps := PullSteps(acct, ms, false);
    if acct.active && ms == map[] {
      forall k, f
        ensures !(Expected(acct, today, k) && Missing(acct, k, f))
      {
        assert !HasFormat(ms, k, f);
      }
    }
    if acct.active && ms != map[] {
      var k := Choose(ms.Keys);
      var f := Choose(ms[k]);
      assert HasFormat(ms, k, f);
    }
  }

  /** `pull_current`: a session asking only for current transactions, run
      exactly when the account is active. */
  function PullCurrent(acct: Account): (steps: seq<Step>)
    ensures steps != [] <==> acct.active
    ensures steps != [] ==> |steps| == 4 && steps[3] == RunDoPull(map[], true)
  {
    PullSteps(acct, map[], true)
  }
}
