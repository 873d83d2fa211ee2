/** The statement library of one account: which (period, format) pairs are
    archived, as an index kept in memory and as files on disk.

    The disk is the account's library directory: a map from entry name to
    either a sub-directory (with the names of the files in it) or a plain
    file. Formats live in same-named sub-directories, and a statement for
    period P in format F is the file `name_YYYY_MM.F` inside directory F.
    The index is keyed by the period scalar `ym`; a missing key reads as the
    empty set, like the `defaultdict(set)` it models.
 */
module Library {
  import opened Base
  import opened Text
  import opened StatementDates

  /** Formats per period scalar; used for the index, the ignore map and the
      map of missing statements. */
  type Lib = map<int, set<string>>

  /** A `defaultdict(set)` read. */
  function Get(m: Lib, k: int): set<string> {
    if k in m then m[k] else {}
  }

  predicate HasFormat(m: Lib, k: int, fmt: string) {
    fmt in Get(m, k)
  }

  /** `has_statement`. */
  predicate HasStatement(lib: Lib, p: Period, fmt: string) {
    HasFormat(lib, p.Ym(), fmt)
  }

  datatype Entry = Dir(files: set<string>) | Plain

  type Disk = map<string, Entry>

  datatype Archive = Archive(lib: Lib, disk: Disk)

  // ---------------------------------------------------------------------
  // File names
  // ---------------------------------------------------------------------

  /** What a successful `re.match` of `name_([0-9]{4})_([0-9]{2})\.(\w+)`
      yields: the period built from groups 1 and 2 and the format in
      group 3. */
  datatype NameMatch = NameMatch(period: Period, ext: string)

  /** The scan's pattern, anchored at the start of the file name only: the
      account name, `_`, four digits, `_`, two digits, `.`, then the longest
      run of word characters. Month digits are not range-checked. */
  function MatchName(name: string, file: string): (r: Option<NameMatch>)
    ensures r.Some? ==> |file| >= |name| + 10 && file[..|name|] == name
    ensures r.Some? ==> 0 <= r.value.period.year <= 9999 && 0 <= r.value.period.month <= 99
    ensures r.Some? ==> |r.value.ext| >= 1 && forall i :: 0 <= i < |r.value.ext| ==> IsWordChar(r.value.ext[i])
  {
    var n := |name|;
    if |file| >= n + 10 && file[..n] == name && file[n] == '_'
       && AllDigits(file[n + 1..n + 5]) && file[n + 5] == '_'
       && AllDigits(file[n + 6..n + 8]) && file[n + 8] == '.'
       && IsWordChar(file[n + 9])
    then
      var year := file[n + 1..n + 5];
      var month := file[n + 6..n + 8];
      FourDigitsBound(year);
      TwoDigitsBound(month);
      Some(NameMatch(Period(DigitsValue(year), DigitsValue(month)), WordPrefix(file[n + 9..])))
    else None
  }

  lemma TwoDigitsBound(s: string)
    requires |s| == 2 && AllDigits(s)
    ensures DigitsValue(s) <= 99
  {
    DigitsValueBound(s);
    assert Pow10(2) == 100;
  }

  lemma FourDigitsBound(s: string)
    requires |s| == 4 && AllDigits(s)
    ensures DigitsValue(s) <= 9999
  {
    DigitsValueBound(s);
    assert Pow10(4) == 10000;
  }

  /** The canonical file name `file_statement` gives a statement. */
  function FileName(name: string, p: Period, fmt: string): string {
    name + "_" + IntToString(p.year) + "_" + Zfill(IntToString(p.month), 2) + "." + fmt
  }

  /** `file` in format directory `dir` registers period scalar `k`. */
  predicate Hit(name: string, file: string, dir: string, k: int) {
    var m := MatchName(name, file);
    m.Some? && m.value.ext == dir && m.value.period.Ym() == k
  }

  /** Format `fmt` is on disk for period scalar `k`: `fmt` is a directory
      holding a file that the scan pattern maps to `k` and `fmt`. */
  ghost predicate Registered(name: string, disk: Disk, k: int, fmt: string) {
    fmt in disk && disk[fmt].Dir? && exists f :: f in disk[fmt].files && Hit(name, f, fmt, k)
  }

  /** The index says exactly what a scan of the disk would say. */
  ghost predicate InSync(name: string, a: Archive) {
    forall k, fmt :: HasFormat(a.lib, k, fmt) <==> Registered(name, a.disk, k, fmt)
  }

  lemma NatToStringFourDigits(n: nat)
    requires 1000 <= n <= 9999
    ensures |NatToString(n)| == 4
  {
    assert 100 <= n / 10 <= 999;
    assert 10 <= n / 10 / 10 <= 99;
    assert 1 <= n / 10 / 10 / 10 <= 9;
    assert |NatToString(n / 10 / 10)| == 2;
    assert |NatToString(n / 10)| == 3;
  }

  lemma WordPrefixOfWord(s: string)
    requires forall i :: 0 <= i < |s| ==> IsWordChar(s[i])
    ensures WordPrefix(s) == s
  {
  }

  /** The name `file_statement` writes is recognised by the scan as the same
      period and format, provided the year has four digits, the month lies
      in 1..12 and the format is a non-empty word. */
  lemma {:induction false} FileNameRoundTrip(name: string, p: Period, fmt: string)
    requires 1000 <= p.year <= 9999 && ValidMonth(p)
    requires |fmt| >= 1 && forall i :: 0 <= i < |fmt| ==> IsWordChar(fmt[i])
    ensures MatchName(name, FileName(name, p, fmt)) == Some(NameMatch(p, fmt))
    ensures Hit(name, FileName(name, p, fmt), fmt, p.Ym())
  {
    FileNameFields(name, p, fmt);
    NatToStringFourDigits(p.year);
    MonthFieldDigits(p.month);
    DigitsValueOfNatToString(p.year);
    WordPrefixOfWord(fmt);
  }

  /** Where each field of a generated file name sits. */
  lemma FileNameFields(name: string, p: Period, fmt: string)
    requires 1000 <= p.year <= 9999 && ValidMonth(p)
    ensures var file, n := FileName(name, p, fmt), |name|;
      && |file| == n + 9 + |fmt|
      && file[..n] == name && file[n] == '_'
      && file[n + 1..n + 5] == NatToString(p.year) && file[n + 5] == '_'
      && file[n + 6..n + 8] == Zfill(IntToString(p.month), 2) && file[n + 8] == '.'
      && file[n + 9..] == fmt
  {
    var y := IntToString(p.year);
    assert y == NatToString(p.year);
    var mm := Zfill(IntToString(p.month), 2);
    NatToStringFourDigits(p.year);
    MonthFieldDigits(p.month);
    var file := FileName(name, p, fmt);
    var n := |name|;
    assert file == name + ['_'] + y + ['_'] + mm + ['.'] + fmt;
    assert file[..n] == name;
    assert file[n + 1..n + 5] == y;
    assert file[n + 6..n + 8] == mm;
    assert file[n + 9..] == fmt;
  }


  /** A file that is not the canonical name of (p, fmt) for the same account
      name cannot register p's scalar... unless it is another valid name for
      it; this lemma states the converse direction the index relies on: the
      canonical name registers no other period. */
  lemma FileNameHitsOnlyItsPeriod(name: string, p: Period, fmt: string, k: int)
    requires 1000 <= p.year <= 9999 && ValidMonth(p)
    requires |fmt| >= 1 && forall i :: 0 <= i < |fmt| ==> IsWordChar(fmt[i])
    ensures Hit(name, FileName(name, p, fmt), fmt, k) <==> k == p.Ym()
  {
    FileNameRoundTrip(name, p, fmt);
  }

  // ---------------------------------------------------------------------
  // build_library
  // ---------------------------------------------------------------------

  /** `build_library`: visit every format directory (non-directories are
      skipped) and every file in it, and record the format for the file's
      period when the file matches the pattern and its extension names the
      directory it sits in. */
  method BuildLibrary(name: string, disk: Disk) returns (lib: Lib)
    ensures forall k, fmt :: HasFormat(lib, k, fmt) <==> Registered(name, disk, k, fmt)
    ensures forall k :: k in lib ==> lib[k] != {}
  {
    lib := map[];
    var dirs := disk.Keys;
    while dirs != {}
      invariant dirs <= disk.Keys
      invariant forall k, fmt :: HasFormat(lib, k, fmt) <==> fmt !in dirs && Registered(name, disk, k, fmt)
      invariant forall k :: k in lib ==> lib[k] != {}
      decreases dirs
    {
      var d :| d in dirs;
      if disk[d].Dir? {
        var files := disk[d].files;
        while files != {}
          invariant files <= disk[d].files
          invariant forall k, fmt :: HasFormat(lib, k, fmt) <==>
            (fmt !in dirs && Registered(name, disk, k, fmt))
            || (fmt == d && exists f :: f in disk[d].files && f !in files && Hit(name, f, d, k))
          invariant forall k :: k in lib ==> lib[k] != {}
          decreases files
        {
          var f :| f in files;
          var m := MatchName(name, f);
          ghost var before := lib;
          if m.Some? && m.value.ext == d {
            var hitKey := m.value.period.Ym();
            lib := lib[hitKey := Get(lib, hitKey) + {d}];
            forall k, fmt
              ensures HasFormat(lib, k, fmt) <==> HasFormat(before, k, fmt) || (k == hitKey && fmt == d)
            {
            }
          }
          forall k, fmt
            ensures HasFormat(lib, k, fmt) <==>
              (fmt !in dirs && Registered(name, disk, k, fmt))
              || (fmt == d && exists g :: g in disk[d].files && g !in files - {f} && Hit(name, g, d, k))
          {
            if fmt == d && Hit(name, f, d, k) {
              assert f in disk[d].files && f !in files - {f};
            }
          }
          files := files - {f};
        }
      }
      dirs := dirs - {d};
    }
  }

  // ---------------------------------------------------------------------
  // file_statement
  // ---------------------------------------------------------------------

  /** `file_statement`: create the format directory if needed, move the
      artifact to its canonical name inside it (replacing a file of that
      name) and add the format to the period's index entry. `mkdir` with
      `exist_ok` still fails when a plain file holds the directory's name. */
  function FileStatement(name: string, a: Archive, p: Period, fmt: string): (r: Result<Archive>)
    ensures r.Err? <==> fmt in a.disk && a.disk[fmt].Plain?
    ensures r.Err? ==> r.error == FileExistsError
    ensures r.Ok? ==> HasStatement(r.value.lib, p, fmt)
    ensures r.Ok? ==> Get(r.value.lib, p.Ym()) == Get(a.lib, p.Ym()) + {fmt}
    ensures r.Ok? ==> forall k :: k != p.Ym() ==> Get(r.value.lib, k) == Get(a.lib, k)
    ensures r.Ok? ==> r.value.disk.Keys == a.disk.Keys + {fmt}
    ensures r.Ok? ==> forall d :: d in a.disk && d != fmt ==> r.value.disk[d] == a.disk[d]
    ensures r.Ok? ==> r.value.disk[fmt].Dir? && FileName(name, p, fmt) in r.value.disk[fmt].files
    ensures r.Ok? && fmt in a.disk ==> r.value.disk[fmt].files == a.disk[fmt].files + {FileName(name, p, fmt)}
    ensures r.Ok? && fmt !in a.disk ==> r.value.disk[fmt].files == {FileName(name, p, fmt)}
  {
    if fmt in a.disk && a.disk[fmt].Plain? then Err(FileExistsError)
    else
      var existing := if fmt in a.disk then a.disk[fmt].files else {};
      Ok(Archive(a.lib[p.Ym() := Get(a.lib, p.Ym()) + {fmt}],
                 a.disk[fmt := Dir(existing + {FileName(name, p, fmt)})]))
  }

  /** Filing keeps the index equal to what a fresh scan of the disk would
      find: the scan sees exactly the old pairs plus the new one. */
  lemma FileKeepsIndexInSync(name: string, a: Archive, p: Period, fmt: string)
    requires InSync(name, a)
    requires 1000 <= p.year <= 9999 && ValidMonth(p)
    requires |fmt| >= 1 && forall i :: 0 <= i < |fmt| ==> IsWordChar(fmt[i])
    requires FileStatement(name, a, p, fmt).Ok?
    ensures forall k, f :: Registered(name, FileStatement(name, a, p, fmt).value.disk, k, f) <==>
      Registered(name, a.disk, k, f) || (k == p.Ym() && f == fmt)
    ensures InSync(name, FileStatement(name, a, p, fmt).value)
  {
    var b := FileStatement(name, a, p, fmt).value;
    var fn := FileName(name, p, fmt);
    forall k, f
      ensures Registered(name, b.disk, k, f) <==> Registered(name, a.disk, k, f) || (k == p.Ym() && f == fmt)
    {
      if f == fmt {
        FileNameHitsOnlyItsPeriod(name, p, fmt, k);
        if k == p.Ym() {
          assert fn in b.disk[f].files && Hit(name, fn, f, k);
        }
        if Registered(name, b.disk, k, f) && k != p.Ym() {
          var g :| g in b.disk[f].files && Hit(name, g, f, k);
          assert g != fn;
          assert fmt in a.disk && g in a.disk[f].files;
        }
      }
    }
  }

  // ---------------------------------------------------------------------
  // The ignore map
  // ---------------------------------------------------------------------

  /** One configured ignore entry: an ISO period and either a list of
      formats or None. */
  datatype IgnoreEntry = IgnoreEntry(iso: string, fmts: Option<seq<string>>)

  /** None ignores every format the account type pulls. */
  function IgnoredFormats(pullFmts: set<string>, fmts: Option<seq<string>>): set<string> {
    match fmts
    case None => pullFmts
    case Some(l) => set f | f in l
  }

  predicate KeyedAt(entries: seq<IgnoreEntry>, i: int, k: int)
    requires 0 <= i < |entries|
  {
    var r := FromIso(entries[i].iso);
    r.Ok? && r.value.Ym() == k
  }

  /** The period scalar and ignored formats of one entry. */
  function IgnorePair(pullFmts: set<string>, e: IgnoreEntry): Result<(int, set<string>)> {
    match FromIso(e.iso)
    case Err(err) => Err(err)
    case Ok(p) => Ok((p.Ym(), IgnoredFormats(pullFmts, e.fmts)))
  }

  /** The ignore map built in `Account.__init__`: entries are read in order,
      a later entry for the same period replacing an earlier one; the first
      ISO string `from_iso` rejects aborts construction with its error. */
  function BuildIgnore(pullFmts: set<string>, entries: seq<IgnoreEntry>): (r: Result<Lib>)
    ensures r.Ok? <==> forall i :: 0 <= i < |entries| ==> FromIso(entries[i].iso).Ok?
    ensures r.Err? ==> exists i :: 0 <= i < |entries| && FromIso(entries[i].iso) == Err(r.error)
                         && forall j :: 0 <= j < i ==> FromIso(entries[j].iso).Ok?
  {
    IndexAll(entries, (e: IgnoreEntry) => IgnorePair(pullFmts, e))
  }

  /** The map has a key for every configured period, carrying the formats of
      the last entry for it: its own list, or every format the account pulls
      when the list is None. */
  lemma BuildIgnoreContents(pullFmts: set<string>, entries: seq<IgnoreEntry>)
    requires BuildIgnore(pullFmts, entries).Ok?
    ensures var m := BuildIgnore(pullFmts, entries).value;
      forall k :: k in m <==> exists i :: 0 <= i < |entries| && KeyedAt(entries, i, k)
    ensures var m := BuildIgnore(pullFmts, entries).value;
      forall i, k :: (0 <= i < |entries| && KeyedAt(entries, i, k) && (forall j :: i < j < |entries| ==> !KeyedAt(entries, j, k)))
        ==> m[k] == IgnoredFormats(pullFmts, entries[i].fmts)
  {
    BuildIgnoreKeys(pullFmts, entries);
    BuildIgnoreLastWins(pullFmts, entries);
  }

  /** The keys of the ignore map are the periods of the entries. */
  lemma BuildIgnoreKeys(pullFmts: set<string>, entries: seq<IgnoreEntry>)
    requires BuildIgnore(pullFmts, entries).Ok?
    ensures var m := BuildIgnore(pullFmts, entries).value;
      forall k :: k in m <==> exists i :: 0 <= i < |entries| && KeyedAt(entries, i, k)
  {
    var f := (e: IgnoreEntry) => IgnorePair(pullFmts, e);
    var m := IndexAll(entries, f).value;
    forall k
      ensures k in m <==> exists i :: 0 <= i < |entries| && KeyedAt(entries, i, k)
    {
      if k in m {
        var i :| 0 <= i < |entries| && f(entries[i]).value.0 == k;
        assert KeyedAt(entries, i, k);
      } else {
        forall i | 0 <= i < |entries| ensures !KeyedAt(entries, i, k) {
          assert f(entries[i]).value.0 in m;
        }
      }
    }
  }

  /** The last entry for a period decides its ignored formats. */
  lemma BuildIgnoreLastWins(pullFmts: set<string>, entries: seq<IgnoreEntry>)
    requires BuildIgnore(pullFmts, entries).Ok?
    ensures var m := BuildIgnore(pullFmts, entries).value;
      forall i, k :: (0 <= i < |entries| && KeyedAt(entries, i, k) && (forall j :: i < j < |entries| ==> !KeyedAt(entries, j, k)))
        ==> m[k] == IgnoredFormats(pullFmts, entries[i].fmts)
  {
    var f := (e: IgnoreEntry) => IgnorePair(pullFmts, e);
    var m := IndexAll(entries, f).value;
    forall i | 0 <= i < |entries|
      ensures f(entries[i]).value.0 == FromIso(entries[i].iso).value.Ym()
      ensures f(entries[i]).value.1 == IgnoredFormats(pullFmts, entries[i].fmts)
    {
    }
    forall i, k | 0 <= i < |entries| && KeyedAt(entries, i, k) && (forall j :: i < j < |entries| ==> !KeyedAt(entries, j, k))
      ensures m[k] == IgnoredFormats(pullFmts, entries[i].fmts)
    {
      assert forall j :: i < j < |entries| ==> f(entries[j]).value.0 != f(entries[i]).value.0 by {
        forall j | i < j < |entries| ensures f(entries[j]).value.0 != k {
          assert !KeyedAt(entries, j, k);
        }
      }
    }
  }

}
