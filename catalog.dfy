/** The backup catalog of `opnsense_config.py`: the `config-<stamp>.xml` naming
    convention, the filter-and-sort of `list_backups`, the lines it logs for each
    entry, and the operator's numbered choice in the restore flow. */
module Catalog {
  import opened PyValues
  import opened Order
  import opened Stamps

  const Prefix: string := "config-"
  const Suffix: string := ".xml"

  /** `f.startswith("config-") and f.endswith(".xml")`. */
  predicate IsBackupName(f: string) {
    Prefix <= f && |f| >= |Suffix| && f[|f| - |Suffix|..] == Suffix
  }

  /** `f"config-{timestamp}.xml"`, the file name a backup is written under. */
  function BackupName(stamp: string): (f: string)
    ensures IsBackupName(f)
    ensures |f| == |stamp| + 11
  {
    var f := Prefix + stamp + Suffix;
    assert f[|f| - |Suffix|..] == Suffix;
    f
  }

  // ---------------------------------------------------------------- stamp extraction

  /** `s.replace(p, "")`: every non-overlapping occurrence of `p`, scanning left to
      right, removed. */
  function RemoveAll(s: string, p: string): (r: string)
    requires p != []
    ensures |r| <= |s|
    // only removal changes the string
    ensures |r| == |s| ==> r == s
    decreases |s|
  {
    if p <= s then RemoveAll(s[|p|..], p)
    else if s == [] then []
    else
      assert s == [s[0]] + s[1..];
      [s[0]] + RemoveAll(s[1..], p)
  }

  /** `replace` leaves a string unchanged exactly when the pattern does not occur in
      it, and each occurrence it finds costs the string at least the pattern's length. */
  lemma {:induction false} RemoveAllUnchanged(s: string, p: string)
    requires p != []
    ensures Contains(s, p) ==> |RemoveAll(s, p)| <= |s| - |p|
    ensures RemoveAll(s, p) == s <==> !Contains(s, p)
    decreases |s|
  {
    if p <= s {
    } else if s != [] {
      RemoveAllUnchanged(s[1..], p);
    }
  }

  /** `file.replace("config-", "").replace(".xml", "")`: never longer than the name,
      and the name itself when it contains neither part. */
  function ExtractStamp(f: string): (r: string)
    ensures |r| <= |f|
  {
    RemoveAll(RemoveAll(f, Prefix), Suffix)
  }

  /** A name holding neither `config-` nor `.xml` is its own stamp. */
  lemma ExtractStampPlain(f: string)
    requires !Contains(f, Prefix) && !Contains(f, Suffix)
    ensures ExtractStamp(f) == f
  {
    RemoveAllUnchanged(f, Prefix);
    RemoveAllUnchanged(f, Suffix);
  }

  lemma {:induction false} RemoveAllSkips(s: string, t: string, p: string)
    requires p != []
    requires forall i :: 0 <= i < |s| ==> s[i] != p[0]
    ensures RemoveAll(s + t, p) == s + RemoveAll(t, p)
    decreases |s|
  {
    if s != [] {
      var st := s + t;
      assert st[1..] == s[1..] + t;
      RemoveAllStep(st, p);
      RemoveAllSkips(s[1..], t, p);
      assert s == [s[0]] + s[1..];
    } else {
      assert s + t == t;
    }
  }

  /** A string that does not start with the pattern's first character keeps that
      character. */
  lemma RemoveAllStep(s: string, p: string)
    requires p != [] && s != [] && s[0] != p[0]
    ensures RemoveAll(s, p) == [s[0]] + RemoveAll(s[1..], p)
  {
    assert !(p <= s) by {
      assert |p| > |s| || s[..|p|][0] != p[0];
    }
  }

  lemma RemoveAllAbsent(s: string, p: string)
    requires p != []
    requires forall i :: 0 <= i < |s| ==> s[i] != p[0]
    ensures RemoveAll(s, p) == s
  {
    RemoveAllSkips(s, [], p);
    assert s + [] == s;
  }

  /** Reading the stamp back out of a name the backup step produced gives exactly the
      stamp it was built from, for any stamp free of the characters `c` and `.`. */
  lemma ExtractBackupName(stamp: string)
    requires forall i :: 0 <= i < |stamp| ==> stamp[i] != 'c' && stamp[i] != '.'
    ensures ExtractStamp(BackupName(stamp)) == stamp
  {
    var rest := stamp + Suffix;
    assert BackupName(stamp) == Prefix + rest;
    assert Prefix <= Prefix + rest;
    assert (Prefix + rest)[|Prefix|..] == rest;
    RemoveAllAbsent(rest, Prefix);
    RemoveAllSkips(stamp, Suffix, Suffix);
    assert Suffix <= Suffix && Suffix[|Suffix|..] == [];
    assert RemoveAll(Suffix, Suffix) == [];
    assert stamp + [] == stamp;
  }

  /** The same for the stamps the backup step writes. */
  lemma ExtractWrittenStamp(t: Moment)
    requires Valid(t)
    ensures ExtractStamp(BackupName(Format14(t))) == Format14(t)
  {
    ExtractBackupName(Format14(t));
  }

  // ---------------------------------------------------------------- logged lines

  /** The line `list_backups` logs for entry `i` (0-based) of the sorted list: with the
      creation time when the stamp parses as a date, the bare name otherwise. */
  function EntryLine(i: nat, f: string): string
  {
    var head := IntToString(i + 1) + ". " + f;
    match Parse14(ExtractStamp(f))
    case Some(t) => head + " (created " + DisplayForm(t) + ")"
    case None => head
  }

  /** Every logged line starts with its 1-based number and the file name. */
  lemma EntryLineHead(i: nat, f: string)
    ensures IntToString(i + 1) + ". " + f <= EntryLine(i, f)
  {
    var head := IntToString(i + 1) + ". " + f;
    match Parse14(ExtractStamp(f))
    case Some(t) =>
      PrefixOfAppend(head, " (created " + DisplayForm(t) + ")");
    case None =>
  }

  lemma PrefixOfAppend(a: string, b: string)
    ensures a <= a + b
  {
    assert (a + b)[..|a|] == a;
  }

  /** `line(i, names[i])` for the first `k` entries, in order: what an `enumerate` loop
      that logs one line per entry has logged after `k` rounds. */
  function Enumerated(line: (nat, string) -> string, names: seq<string>, k: nat): (r: seq<string>)
    requires k <= |names|
    ensures |r| == k
    decreases k
  {
    if k == 0 then [] else Enumerated(line, names, k - 1) + [line(k - 1, names[k - 1])]
  }

  /** Round `i` logged the line of entry `i`. */
  lemma {:induction false} EnumeratedAt(line: (nat, string) -> string, names: seq<string>, k: nat, i: nat)
    requires i < k <= |names|
    ensures Enumerated(line, names, k)[i] == line(i, names[i])
    decreases k
  {
    if i < k - 1 {
      EnumeratedAt(line, names, k - 1, i);
    }
  }

  /** The `enumerate` loop of `list_backups`: one logged line per entry, numbered
      from 1 in list order. */
  method LogEntries(names: seq<string>) returns (lines: seq<string>)
    ensures |lines| == |names|
    ensures forall i {:trigger lines[i]} :: 0 <= i < |lines| ==> lines[i] == EntryLine(i, names[i])
  {
    lines := [];
    var k := 0;
    while k < |names|
      invariant 0 <= k <= |names|
      invariant lines == Enumerated(EntryLine, names, k)
    {
      var line := EntryLine(k, names[k]);
      lines := lines + [line];
      k := k + 1;
    }
    forall i | 0 <= i < |lines|
      ensures lines[i] == EntryLine(i, names[i])
    {
      EnumeratedAt(EntryLine, names, k, i);
    }
  }

  /** A backup written at `t` is listed with `t` in display form. */
  lemma EntryLineOfBackup(i: nat, t: Moment)
    requires Valid(t)
    ensures EntryLine(i, BackupName(Format14(t)))
         == IntToString(i + 1) + ". " + BackupName(Format14(t)) + " (created " + DisplayForm(t) + ")"
  {
    ExtractWrittenStamp(t);
    ParseFormat(t);
  }

  /** The creation time is shown only for a stamp that parses. */
  lemma EntryLineWithoutDate(i: nat, f: string)
    requires Parse14(ExtractStamp(f)).None?
    ensures EntryLine(i, f) == IntToString(i + 1) + ". " + f
  {
  }

  // ---------------------------------------------------------------- filter and sort

  /** The comprehension `[f for f in entries if f.startswith(...) and f.endswith(...)]`. */
  function Filter(entries: seq<string>): (r: seq<string>)
    ensures forall f :: f in r ==> IsBackupName(f)
  {
    if entries == [] then []
    else (if IsBackupName(entries[0]) then [entries[0]] else []) + Filter(entries[1..])
  }

  /** The filter keeps every matching entry as often as it occurs and nothing else. */
  lemma {:induction false} FilterCounts(entries: seq<string>, f: string)
    ensures multiset(Filter(entries))[f] == if IsBackupName(f) then multiset(entries)[f] else 0
  {
    if entries != [] {
      FilterCounts(entries[1..], f);
      assert entries == [entries[0]] + entries[1..];
      assert multiset(entries)[f] == multiset([entries[0]])[f] + multiset(entries[1..])[f];
    }
  }

  lemma FilterKeeps(entries: seq<string>, f: string)
    ensures f in Filter(entries) <==> f in entries && IsBackupName(f)
  {
    FilterCounts(entries, f);
  }

  lemma FilterPermutation(a: seq<string>, b: seq<string>)
    requires multiset(a) == multiset(b)
    ensures multiset(Filter(a)) == multiset(Filter(b))
  {
    forall f
      ensures multiset(Filter(a))[f] == multiset(Filter(b))[f]
    {
      FilterCounts(a, f);
      FilterCounts(b, f);
    }
  }

  /** Insert `x` into a non-increasing list before the first element not above it. */
  function InsertDesc(x: string, s: seq<string>): (r: seq<string>)
    ensures multiset(r) == multiset(s) + multiset{x}
  {
    if s == [] then [x]
    else if LexLe(s[0], x) then [x] + s
    else
      assert s == [s[0]] + s[1..];
      [s[0]] + InsertDesc(x, s[1..])
  }

  lemma {:induction false} InsertDescSorted(x: string, s: seq<string>)
    requires SortedDesc(s)
    ensures SortedDesc(InsertDesc(x, s))
    decreases |s|
  {
    if s == [] {
    } else if LexLe(s[0], x) {
      InsertKeepsSorted(s, x, 0);
      assert s[..0] + [x] + s[0..] == [x] + s;
    } else {
      var tail := s[1..];
      InsertDescSorted(x, tail);
      var r := InsertDesc(x, tail);
      LexLeTotal(s[0], x);
      forall k | 0 <= k < |r|
        ensures LexLe(r[k], s[0])
      {
        assert r[k] in multiset(r);
        if r[k] != x {
          assert r[k] in multiset(tail);
          var m :| 0 <= m < |tail| && tail[m] == r[k];
          assert tail[m] == s[m + 1];
        }
      }
    }
  }

  /** A functional insertion sort in descending order: the reference for `sort(reverse=True)`. */
  function SortDesc(s: seq<string>): (r: seq<string>)
    ensures multiset(r) == multiset(s)
    ensures SortedDesc(r)
  {
    if s == [] then []
    else
      assert s == [s[0]] + s[1..];
      InsertDescSorted(s[0], SortDesc(s[1..]));
      InsertDesc(s[0], SortDesc(s[1..]))
  }

  /** Where the sort inserts `x`: before the first element that is not above it. */
  method InsertionPoint(sorted: seq<string>, x: string) returns (j: nat)
    ensures j <= |sorted|
    ensures forall k :: 0 <= k < j ==> !LexLe(sorted[k], x)
    ensures j < |sorted| ==> LexLe(sorted[j], x)
  {
    j := 0;
    while j < |sorted| && !LexLe(sorted[j], x)
      invariant j <= |sorted|
      invariant forall k :: 0 <= k < j ==> !LexLe(sorted[k], x)
    {
      j := j + 1;
    }
  }

  /** Inserting at the insertion point keeps the list sorted and adds exactly `x`. */
  lemma InsertStep(sorted: seq<string>, x: string, j: nat)
    requires SortedDesc(sorted) && j <= |sorted|
    requires forall k :: 0 <= k < j ==> !LexLe(sorted[k], x)
    requires j < |sorted| ==> LexLe(sorted[j], x)
    ensures SortedDesc(sorted[..j] + [x] + sorted[j..])
    ensures multiset(sorted[..j] + [x] + sorted[j..]) == multiset(sorted) + multiset{x}
  {
    InsertKeepsSorted(sorted, x, j);
    var front, back := sorted[..j], sorted[j..];
    assert sorted == front + back;
    assert multiset(front + [x] + back) == multiset(front) + multiset{x} + multiset(back);
  }

  /** `backup_files.sort(reverse=True)`, applied to the list as a value. */
  method SortNewestFirst(names: seq<string>) returns (sorted: seq<string>)
    ensures sorted == SortDesc(names)
  {
    sorted := [];
    var i := 0;
    while i < |names|
      invariant 0 <= i <= |names|
      invariant SortedDesc(sorted)
      invariant multiset(sorted) == multiset(names[..i])
    {
      var x := names[i];
      var j := InsertionPoint(sorted, x);
      InsertStep(sorted, x, j);
      sorted := sorted[..j] + [x] + sorted[j..];
      assert names[..i + 1] == names[..i] + [x];
      i := i + 1;
    }
    assert names[..i] == names;
    SortedUnique(sorted, SortDesc(names));
  }

  /** The list `list_backups` returns for a directory holding `entries`. */
  function Catalog(entries: seq<string>): (r: seq<string>)
    ensures SortedDesc(r) && multiset(r) == multiset(Filter(entries))
    ensures forall f :: f in r ==> IsBackupName(f)
  {
    var r := SortDesc(Filter(entries));
    assert forall f :: f in r ==> f in multiset(r);
    r
  }

  /** Exactly the matching entries, each as often as listed, in non-increasing order. */
  lemma CatalogContents(entries: seq<string>)
    ensures SortedDesc(Catalog(entries))
    ensures forall f :: multiset(Catalog(entries))[f] == if IsBackupName(f) then multiset(entries)[f] else 0
  {
    forall f {
      FilterCounts(entries, f);
    }
  }

  /** The catalog does not depend on the order in which the directory is listed, so
      listing an unchanged directory twice gives the same sequence. */
  lemma CatalogIgnoresListingOrder(a: seq<string>, b: seq<string>)
    requires multiset(a) == multiset(b)
    ensures Catalog(a) == Catalog(b)
  {
    FilterPermutation(a, b);
    SortedUnique(Catalog(a), Catalog(b));
  }

  /** Any sorted arrangement of the matching entries is the catalog. */
  lemma CatalogIsTheSortedFilter(entries: seq<string>, r: seq<string>)
    requires SortedDesc(r) && multiset(r) == multiset(Filter(entries))
    ensures r == Catalog(entries)
  {
    SortedUnique(r, Catalog(entries));
  }

  /** Names built from written stamps sort newest first. */
  lemma BackupNameOrder(a: Moment, b: Moment)
    requires Valid(a) && Valid(b)
    ensures LexLe(BackupName(Format14(a)), BackupName(Format14(b))) <==> NotLater(a, b)
  {
    var sa, sb := Format14(a), Format14(b);
    assert BackupName(sa) == Prefix + (sa + Suffix);
    assert BackupName(sb) == Prefix + (sb + Suffix);
    LexLeBlocks(Prefix, sa + Suffix, Prefix, sb + Suffix);
    LexLeBlocks(sa, Suffix, sb, Suffix);
    LexLeRefl(Suffix);
    LexLeRefl(sa);
    FormatOrder(a, b);
  }

  /** In the catalog, a backup written at `a` listed before one written at `b` is
      not older than it. */
  lemma CatalogNewestFirst(entries: seq<string>, i: nat, j: nat, a: Moment, b: Moment)
    requires i < j < |Catalog(entries)|
    requires Valid(a) && Valid(b)
    requires Catalog(entries)[i] == BackupName(Format14(a))
    requires Catalog(entries)[j] == BackupName(Format14(b))
    ensures NotLater(b, a)
  {
    BackupNameOrder(b, a);
  }

  lemma ExampleOrder()
    ensures !LexLe("config-20240101000000.xml", "config-20230101000000.xml")
  {
    var common := "config-202";
    var s, t := "40101000000.xml", "30101000000.xml";
    assert "config-20240101000000.xml" == common + s;
    assert "config-20230101000000.xml" == common + t;
    LexLeBlocks(common, s, common, t);
  }

  /** Two backup names, listed in either order, come out with the later name first. */
  lemma CatalogOfTwo(older: string, newer: string)
    requires IsBackupName(older) && IsBackupName(newer)
    requires !LexLe(newer, older)
    ensures Catalog([older, newer]) == [newer, older]
  {
    var e := [older, newer];
    assert e[1..] == [newer];
    assert Filter([newer]) == [newer];
    assert Filter(e) == e;
    assert SortDesc([newer]) == [newer];
    assert InsertDesc(older, [newer]) == [newer, older];
  }

  /** Both example names follow the naming convention. */
  lemma ExampleNames()
    ensures IsBackupName("config-20230101000000.xml") && IsBackupName("config-20240101000000.xml")
  {
    assert "config-20230101000000.xml" == Prefix + "20230101000000" + Suffix;
    assert "config-20240101000000.xml" == Prefix + "20240101000000" + Suffix;
  }

  /** Two backups taken in 2023 and 2024 are listed with the 2024 one first. */
  lemma CatalogExample()
    ensures Catalog(["config-20230101000000.xml", "config-20240101000000.xml"])
         == ["config-20240101000000.xml", "config-20230101000000.xml"]
  {
    ExampleOrder();
    ExampleNames();
    CatalogOfTwo("config-20230101000000.xml", "config-20240101000000.xml");
  }

  // ---------------------------------------------------------------- selection

  /** `os.path.join(a, b)` with two arguments on POSIX. */
  function PathJoin(a: string, b: string): string {
    if b != [] && b[0] == '/' then b
    else if a == [] || a[|a| - 1] == '/' then a + b
    else a + "/" + b
  }

  /** What the operator's answer leads to in the restore flow. */
  datatype Selection = Cancelled | OutOfRange | NotANumber | Chosen(path: string)

  /** The answer to "Enter the number of the backup to restore (or 'q' to quit)". */
  function SelectBackup(outputDir: string, catalog: seq<string>, choice: string): (r: Selection)
    ensures r == Cancelled <==> Lower(choice) == "q"
    ensures r.Chosen? ==>
      && ParseInt(choice).Some? && 1 <= ParseInt(choice).value <= |catalog|
      && r.path == PathJoin(outputDir, catalog[ParseInt(choice).value - 1])
  {
    if Lower(choice) == "q" then Cancelled
    else match ParseInt(choice)
      case None => NotANumber
      case Some(n) =>
        var index := n - 1;
        if 0 <= index < |catalog| then Chosen(PathJoin(outputDir, catalog[index])) else OutOfRange
  }

  /** A chosen path is always the output directory joined with a listed name. */
  lemma SelectionIsListed(outputDir: string, catalog: seq<string>, choice: string)
    requires SelectBackup(outputDir, catalog, choice).Chosen?
    ensures exists i :: 0 <= i < |catalog| && SelectBackup(outputDir, catalog, choice).path == PathJoin(outputDir, catalog[i])
  {
    var n := ParseInt(choice).value;
    assert 0 <= n - 1 < |catalog|;
  }

  /** Every other answer is read with `int()`: one it reads as a listed number `n`,
      spaces, sign or leading zeros included, picks entry `n - 1`; a number outside the
      list is out of range, and anything else is not a number. */
  lemma SelectByAnswer(outputDir: string, catalog: seq<string>, choice: string)
    requires Lower(choice) != "q"
    ensures var r := SelectBackup(outputDir, catalog, choice);
      && (ParseInt(choice).None? <==> r == NotANumber)
      && (ParseInt(choice).Some? && 1 <= ParseInt(choice).value <= |catalog| ==>
            r == Chosen(PathJoin(outputDir, catalog[ParseInt(choice).value - 1])))
      && (ParseInt(choice).Some? && !(1 <= ParseInt(choice).value <= |catalog|) <==> r == OutOfRange)
  {
  }

  /** `q` and `Q` cancel, whatever is listed. */
  lemma QuitCancels(outputDir: string, catalog: seq<string>, choice: string)
    requires choice == "q" || choice == "Q"
    ensures SelectBackup(outputDir, catalog, choice) == Cancelled
  {
    LowerIsQ(choice);
  }

  /** Typing the number a line was logged with selects that line's backup. */
  lemma SelectByNumber(outputDir: string, catalog: seq<string>, i: nat)
    requires i < |catalog|
    ensures SelectBackup(outputDir, catalog, IntToString(i + 1)) == Chosen(PathJoin(outputDir, catalog[i]))
  {
    var choice := IntToString(i + 1);
    ParseIntToString(i + 1);
    LowerIsQ(choice);
  }

  /** A number outside 1..|catalog| is rejected, and so is anything that is not a number. */
  lemma SelectRejects(outputDir: string, catalog: seq<string>, choice: string)
    requires Lower(choice) != "q"
    requires ParseInt(choice).None? || !(1 <= ParseInt(choice).value <= |catalog|)
    ensures !SelectBackup(outputDir, catalog, choice).Chosen?
  {
  }

  /** For a plain directory name, the chosen path is the path the backup was written to. */
  lemma JoinedPathIsWrittenPath(outputDir: string, stamp: string)
    requires outputDir != [] && outputDir[|outputDir| - 1] != '/'
    ensures PathJoin(outputDir, BackupName(stamp)) == outputDir + "/" + BackupName(stamp)
  {
  }
}
