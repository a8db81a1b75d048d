/** The database backup directory: listing by modification text, and keep-N retention. */
module Backups {
  import opened Options
  import Timestamps

  const NANOSECONDS: nat := 1_000_000_000
  const SUFFIX := ".dump"

  /** A directory entry; info is None when reading it fails. Times are nanoseconds since
      the start of year 0, and are printed to the second. */
  datatype Info = Info(size: nat, modified: nat)
  datatype Entry = Entry(isDir: bool, info: Option<Info>)
  datatype BackupFile = BackupFile(name: string, size: nat, modified: string)

  predicate HasSuffix(name: string) {
    |SUFFIX| <= |name| && name[|name| - |SUFFIX|..] == SUFFIX
  }

  predicate IsDump(name: string, e: Entry) {
    !e.isDir && HasSuffix(name) && e.info.Some?
  }

  function FileOf(name: string, info: Info): BackupFile {
    BackupFile(name, info.size, Timestamps.Format(info.modified / NANOSECONDS))
  }

  /** The names of the dumps a listing shows. */
  function Dumps(entries: map<string, Entry>): set<string> {
    set name | name in entries && IsDump(name, entries[name])
  }

  // ----- Listing -----

  /** Newest first, as the comparison on the printed times has it. */
  ghost predicate NewestFirst(files: seq<BackupFile>) {
    forall i, j :: 0 <= i < j < |files| ==> !Timestamps.TextLess(files[i].modified, files[j].modified)
  }

  ghost predicate DistinctNames(files: seq<BackupFile>) {
    forall i, j :: 0 <= i < j < |files| ==> files[i].name != files[j].name
  }

  /** f is a dump of the directory, with its printed time. */
  predicate Shows(entries: map<string, Entry>, f: BackupFile) {
    f.name in entries && IsDump(f.name, entries[f.name]) && f == FileOf(f.name, entries[f.name].info.value)
  }

  /** files shows every dump once, newest first. */
  ghost predicate Lists(entries: map<string, Entry>, files: seq<BackupFile>) {
    NewestFirst(files) && DistinctNames(files) && forall f :: f in files <==> Shows(entries, f)
  }

  lemma {:induction false} TextLessTransitive(a: string, b: string, c: string)
    requires Timestamps.TextLess(a, b) && Timestamps.TextLess(b, c)
    ensures Timestamps.TextLess(a, c)
  {
    if a != "" && a[0] == b[0] == c[0] { TextLessTransitive(a[1..], b[1..], c[1..]); }
  }

  /** The library sort, of which only this contract is used: ties come in any order. */
  method SortNewestFirst(files: seq<BackupFile>) returns (sorted: seq<BackupFile>)
    ensures multiset(sorted) == multiset(files) && NewestFirst(sorted)
  {
    hide NewestFirst, Timestamps.TextLess;
    sorted := [];
    assert NewestFirst(sorted) by { NothingOutOfOrder(); }
    for i := 0 to |files|
      invariant multiset(sorted) == multiset(files[..i]) && NewestFirst(sorted)
    {
      var f, j := files[i], 0;
      while j < |sorted| && !Timestamps.TextLess(sorted[j].modified, f.modified)
        invariant 0 <= j <= |sorted|
        invariant forall k :: 0 <= k < j ==> !Timestamps.TextLess(sorted[k].modified, f.modified)
      {
        j := j + 1;
      }
      Inserted(sorted, j, f);
      assert files[..i + 1] == files[..i] + [f];
      sorted := sorted[..j] + [f] + sorted[j..];
    }
    assert files[..|files|] == files;
  }

  lemma NothingOutOfOrder()
    ensures NewestFirst([])
  {}

  lemma Inserted(sorted: seq<BackupFile>, j: nat, f: BackupFile)
    requires NewestFirst(sorted) && j <= |sorted|
    requires forall k :: 0 <= k < j ==> !Timestamps.TextLess(sorted[k].modified, f.modified)
    requires j < |sorted| ==> Timestamps.TextLess(sorted[j].modified, f.modified)
    ensures NewestFirst(sorted[..j] + [f] + sorted[j..])
    ensures multiset(sorted[..j] + [f] + sorted[j..]) == multiset(sorted) + multiset{f}
  {
    hide Timestamps.TextLess;
    assert sorted == sorted[..j] + sorted[j..];
    forall k | j <= k < |sorted| ensures !Timestamps.TextLess(f.modified, sorted[k].modified) {
      if Timestamps.TextLess(f.modified, sorted[k].modified) {
        TextLessTransitive(sorted[j].modified, f.modified, sorted[k].modified);
        Timestamps.TextNotLessThanItself(sorted[j].modified);
      }
    }
  }

  lemma SortedStillDistinct(files: seq<BackupFile>, sorted: seq<BackupFile>)
    requires multiset(files) == multiset(sorted) && DistinctNames(files)
    ensures DistinctNames(sorted)
    ensures forall f :: f in sorted <==> f in files
  {
    forall f ensures f in sorted <==> f in files { assert f in multiset(files) <==> f in multiset(sorted); }
    forall i, j | 0 <= i < j < |sorted| ensures sorted[i].name != sorted[j].name {
      if sorted[i].name == sorted[j].name {
        assert sorted[i] in files && sorted[j] in files;
        assert sorted[i] == sorted[j];
        TwiceInSorted(sorted, i, j);
        OnceInFiles(files, sorted[i]);
      }
    }
  }

  lemma TwiceInSorted(sorted: seq<BackupFile>, i: nat, j: nat)
    requires i < j < |sorted| && sorted[i] == sorted[j]
    ensures multiset(sorted)[sorted[i]] >= 2
  {
    assert sorted == sorted[..i] + [sorted[i]] + sorted[i + 1..j] + [sorted[j]] + sorted[j + 1..];
  }

  lemma {:induction false} OnceInFiles(files: seq<BackupFile>, f: BackupFile)
    requires DistinctNames(files)
    ensures multiset(files)[f] <= 1
  {
    if files != [] {
      OnceInFiles(files[1..], f);
      assert files == [files[0]] + files[1..];
      if files[0] == f { assert f !in files[1..]; }
    }
  }

  // ----- Names the code will delete -----

  predicate NameChar(c: char) {
    'A' <= c <= 'Z' || 'a' <= c <= 'z' || '0' <= c <= '9' || c == '.' || c == '_' || c == '-'
  }

  /** validateBackupName: a bare name of safe characters, ending in .dump, without "..". */
  predicate ValidName(name: string) {
    |name| > |SUFFIX| && HasSuffix(name)
    && (forall i :: 0 <= i < |name| ==> NameChar(name[i]))
    && (forall i :: 0 <= i < |name| - 1 ==> !(name[i] == '.' && name[i + 1] == '.'))
  }

  predicate Tame(text: string) {
    forall i :: 0 <= i < |text| ==> NameChar(text[i]) && text[i] != '.'
  }

  lemma {:induction false} DigitsAreTame(n: nat, width: nat)
    ensures Tame(Timestamps.Padded(n, width))
    decreases n + width
  {
    if !(n < 10 && width <= 1) { DigitsAreTame(n / 10, if width == 0 then 0 else width - 1); }
  }

  lemma TameTogether(a: string, b: string)
    requires Tame(a) && Tame(b)
    ensures Tame(a + b)
  {}

  /** Date and time without separators. */
  function Stem(c: Timestamps.Civil): string {
    "dune-" + Timestamps.Padded(c.year, 4) + Timestamps.Padded(c.month + 1, 2) + Timestamps.Padded(c.day + 1, 2)
    + "-" + Timestamps.Padded(c.hour, 2) + Timestamps.Padded(c.minute, 2) + Timestamps.Padded(c.second, 2)
  }

  lemma StemIsTame(c: Timestamps.Civil)
    ensures Tame(Stem(c))
  {
    hide Timestamps.Padded, Tame;
    var year := "dune-" + Timestamps.Padded(c.year, 4);
    assert Tame(year) by { Literals(); DigitsAreTame(c.year, 4); TameTogether("dune-", Timestamps.Padded(c.year, 4)); }
    var month := year + Timestamps.Padded(c.month + 1, 2);
    assert Tame(month) by { DigitsAreTame(c.month + 1, 2); TameTogether(year, Timestamps.Padded(c.month + 1, 2)); }
    var day := month + Timestamps.Padded(c.day + 1, 2);
    assert Tame(day) by { DigitsAreTame(c.day + 1, 2); TameTogether(month, Timestamps.Padded(c.day + 1, 2)); }
    assert Tame(day + "-") by { Literals(); TameTogether(day, "-"); }
    var hour := day + "-" + Timestamps.Padded(c.hour, 2);
    assert Tame(hour) by { DigitsAreTame(c.hour, 2); TameTogether(day + "-", Timestamps.Padded(c.hour, 2)); }
    var minute := hour + Timestamps.Padded(c.minute, 2);
    assert Tame(minute) by { DigitsAreTame(c.minute, 2); TameTogether(hour, Timestamps.Padded(c.minute, 2)); }
    DigitsAreTame(c.second, 2);
    TameTogether(minute, Timestamps.Padded(c.second, 2));
  }

  /** dbBackupFilename: the name of a backup the scheduler writes. */
  function Filename(instant: nat): string {
    Stem(Timestamps.CivilOf(instant)) + SUFFIX
  }

  lemma Literals()
    ensures Tame("dune-") && Tame("-")
  {}

  /** Every name the scheduler gives a backup can be deleted again. */
  lemma ScheduledNamesAreValid(instant: nat)
    ensures ValidName(Filename(instant))
  {
    hide Timestamps.CivilOf, Timestamps.Padded, Tame, ValidName;
    var c := Timestamps.CivilOf(instant);
    StemIsTame(c);
    TameStemIsValid(Stem(c));
  }

  lemma TameStemIsValid(stem: string)
    requires stem != "" && Tame(stem)
    ensures ValidName(stem + SUFFIX)
  {}

  /** The name is "dune-", the date and time of the backup in digits, and ".dump". */
  lemma ScheduledNameLayout(instant: nat)
    requires Timestamps.CivilOf(instant).year < 10000
    ensures
      var c, name := Timestamps.CivilOf(instant), Filename(instant);
      |name| == 25 && name[..5] == "dune-" && name[13] == '-' && name[20..] == ".dump"
      && Timestamps.Number(name[5..9]) == c.year && Timestamps.Number(name[9..11]) == c.month + 1
      && Timestamps.Number(name[11..13]) == c.day + 1 && Timestamps.Number(name[14..16]) == c.hour
      && Timestamps.Number(name[16..18]) == c.minute && Timestamps.Number(name[18..20]) == c.second
  {
    hide Timestamps.CivilOf, Timestamps.Padded, Timestamps.Number, Timestamps.PowerOfTen;
    var c := Timestamps.CivilOf(instant);
    Timestamps.SmallPowers();
    Timestamps.MonthIsShort(c.year, c.month);
    Timestamps.NumberOfPadded(c.year, 4);
    Timestamps.NumberOfPadded(c.month + 1, 2);
    Timestamps.NumberOfPadded(c.day + 1, 2);
    Timestamps.NumberOfPadded(c.hour, 2);
    Timestamps.NumberOfPadded(c.minute, 2);
    Timestamps.NumberOfPadded(c.second, 2);
    var name := Filename(instant);
    assert name[5..9] == Timestamps.Padded(c.year, 4);
    assert name[9..11] == Timestamps.Padded(c.month + 1, 2) && name[11..13] == Timestamps.Padded(c.day + 1, 2);
    assert name[14..16] == Timestamps.Padded(c.hour, 2) && name[16..18] == Timestamps.Padded(c.minute, 2);
    assert name[18..20] == Timestamps.Padded(c.second, 2);
  }

  // ----- Retention -----

  /** backupsToPrune; keepN <= 0 disables pruning. */
  function ToPrune(newestFirst: seq<string>, keepN: int): seq<string> {
    if keepN <= 0 || |newestFirst| <= keepN then [] else newestFirst[keepN..]
  }

  function Elements(names: seq<string>): set<string> {
    set name | name in names
  }

  lemma {:induction false} SizeOfNames(names: seq<string>)
    requires forall i, j :: 0 <= i < j < |names| ==> names[i] != names[j]
    ensures |Elements(names)| == |names|
  {
    if names != [] {
      var front, last := names[..|names| - 1], names[|names| - 1];
      SizeOfNames(front);
      assert names == front + [last];
      assert Elements(names) == Elements(front) + {last};
    }
  }

  lemma TailCount(names: seq<string>, keepN: int)
    requires forall i, j :: 0 <= i < j < |names| ==> names[i] != names[j]
    ensures Elements(ToPrune(names, keepN)) <= Elements(names)
    ensures |Elements(names) - Elements(ToPrune(names, keepN))| == if 0 < keepN < |Elements(names)| then keepN else |Elements(names)|
  {
    SizeOfNames(names);
    SizeOfNames(ToPrune(names, keepN));
    var all, tail := Elements(names), Elements(ToPrune(names, keepN));
    assert all == tail + (all - tail);
  }

  function Names(files: seq<BackupFile>): seq<string> {
    seq(|files|, i requires 0 <= i < |files| => files[i].name)
  }

  lemma ListedNames(entries: map<string, Entry>, files: seq<BackupFile>)
    requires Lists(entries, files)
    ensures Elements(Names(files)) == Dumps(entries)
    ensures forall i, j :: 0 <= i < j < |files| ==> Names(files)[i] != Names(files)[j]
  {
    forall name ensures name in Names(files) <==> name in Dumps(entries) {
      if name in Names(files) {
        var i :| 0 <= i < |files| && Names(files)[i] == name;
        assert files[i] in files;
      }
      if name in Dumps(entries) {
        var f := FileOf(name, entries[name].info.value);
        assert Shows(entries, f);
        var i :| 0 <= i < |files| && files[i] == f;
        assert Names(files)[i] == name;
      }
    }
  }

  /** The names retention gives up, of a listing. */
  function Pruned(files: seq<BackupFile>, keepN: int): set<string> {
    Elements(ToPrune(Names(files), keepN))
  }

  lemma PrunedCount(entries: map<string, Entry>, files: seq<BackupFile>, keepN: int)
    requires Lists(entries, files)
    ensures Pruned(files, keepN) <= Dumps(entries)
    ensures |Dumps(entries) - Pruned(files, keepN)| == if 0 < keepN < |Dumps(entries)| then keepN else |Dumps(entries)|
  {
    hide Lists, Dumps, Elements, ToPrune;
    ListedNames(entries, files);
    TailCount(Names(files), keepN);
  }

  function Second(entries: map<string, Entry>, name: string): nat
    requires name in Dumps(entries)
  {
    entries[name].info.value.modified / NANOSECONDS
  }

  lemma PositionOfPruned(files: seq<BackupFile>, keepN: int, name: string) returns (i: nat)
    requires name in Pruned(files, keepN)
    ensures 0 < keepN <= i < |files| && files[i].name == name
  {
    var names := Names(files);
    var j :| 0 <= j < |ToPrune(names, keepN)| && ToPrune(names, keepN)[j] == name;
    i := j + keepN;
    assert names[i] == name;
  }

  lemma TailHolds(names: seq<string>, keepN: int, i: nat)
    requires keepN > 0 && i < |names|
    ensures i >= keepN ==> names[i] in Elements(ToPrune(names, keepN))
  {}

  lemma PositionOfKept(entries: map<string, Entry>, files: seq<BackupFile>, keepN: int, name: string) returns (i: nat)
    requires Lists(entries, files) && keepN > 0
    requires name in Dumps(entries) - Pruned(files, keepN)
    ensures i < |files| && i < keepN && files[i].name == name
  {
    ListedNames(entries, files);
    var names := Names(files);
    assert name in Elements(names);
    i :| 0 <= i < |names| && names[i] == name;
    TailHolds(names, keepN, i);
  }

  lemma NewestToTheSecond(entries: map<string, Entry>, files: seq<BackupFile>, i: nat, j: nat)
    requires Lists(entries, files) && i < j < |files|
    requires forall name :: name in Dumps(entries) ==> Second(entries, name) < Timestamps.EndOfYear9999()
    ensures files[i].name in Dumps(entries) && files[j].name in Dumps(entries)
    ensures Second(entries, files[j].name) <= Second(entries, files[i].name)
  {
    hide Timestamps.TextLess, Timestamps.Format, Timestamps.TextAtMost, Timestamps.EndOfYear9999;
    assert files[i] in files && files[j] in files;
    assert Shows(entries, files[i]) && Shows(entries, files[j]);
    Timestamps.TextOrderIsTimeOrder(Second(entries, files[i].name), Second(entries, files[j].name));
  }

  /** Sorting by text and dropping the tail keeps exactly the N newest, to the second:
      nothing pruned is newer than anything kept. */
  lemma RetentionKeepsTheNewest(entries: map<string, Entry>, files: seq<BackupFile>, keepN: int)
    requires Lists(entries, files)
    requires forall name :: name in Dumps(entries) ==> Second(entries, name) < Timestamps.EndOfYear9999()
    ensures Pruned(files, keepN) <= Dumps(entries)
    ensures |Dumps(entries) - Pruned(files, keepN)| == if 0 < keepN < |Dumps(entries)| then keepN else |Dumps(entries)|
    ensures forall gone, kept :: gone in Pruned(files, keepN) && kept in Dumps(entries) - Pruned(files, keepN) ==>
              Second(entries, gone) <= Second(entries, kept)
  {
    hide Lists, Dumps, Pruned, Second, Timestamps.EndOfYear9999;
    PrunedCount(entries, files, keepN);
    forall gone, kept | gone in Pruned(files, keepN) && kept in Dumps(entries) - Pruned(files, keepN)
      ensures Second(entries, gone) <= Second(entries, kept)
    {
      var j := PositionOfPruned(files, keepN, gone);
      var i := PositionOfKept(entries, files, keepN, kept);
      NewestToTheSecond(entries, files, i, j);
    }
  }

  lemma NameOfFile(name: string, info: Info)
    ensures FileOf(name, info).name == name
  {}

  class Directory {
    var entries: map<string, Entry>

    constructor (entries: map<string, Entry>)
      ensures this.entries == entries
    {
      this.entries := entries;
    }

    /** listDBBackupsInDir. */
    method ListBackups(fault: Option<Error>) returns (files: seq<BackupFile>, err: Option<Error>)
      ensures err == fault
      ensures err.None? ==> Lists(entries, files)
    {
      hide FileOf, HasSuffix, NewestFirst;
      files, err := [], fault;
      if err.Some? { return; }
      var rest := entries.Keys;
      while rest != {}
        invariant rest <= entries.Keys && DistinctNames(files)
        invariant forall f :: f in files <==> Shows(entries, f) && f.name !in rest
        decreases rest
      {
        var name :| name in rest;
        rest := rest - {name};
        var e := entries[name];
        if e.isDir || !HasSuffix(name) { continue; }
        if e.info.None? { continue; }
        NameOfFile(name, e.info.value);
        files := files + [FileOf(name, e.info.value)];
      }
      ghost var unsorted := files;
      files := SortNewestFirst(files);
      SortedStillDistinct(unsorted, files);
    }

    /** deleteDBBackupInDir; a name that is not there is not an error. */
    method Delete(name: string, fault: Option<Error>) returns (err: Option<Error>)
      modifies this
      ensures entries == if ValidName(name) && fault.None? then old(entries) - {name} else old(entries)
      ensures err.None? <==> ValidName(name) && fault.None?
    {
      if !ValidName(name) { return Some(Error(false, "invalid backup name")); }
      err := fault;
      if err.None? { entries := entries - {name}; }
    }

    /** pruneOldBackups: what goes is the tail of some newest-first listing, except names
        the delete refuses and deletes that fail, which are only logged. */
    method Prune(keepN: int, fault: Option<Error>, deleteFault: string -> Option<Error>)
      returns (ghost files: seq<BackupFile>)
      modifies this
      ensures keepN > 0 && fault.None? ==> Lists(old(entries), files)
      ensures entries == if keepN <= 0 || fault.Some? then old(entries)
                         else old(entries) - Removed(ToPrune(Names(files), keepN), deleteFault)
    {
      hide ValidName, Lists;
      files := [];
      if keepN <= 0 { return; }
      var found, err := ListBackups(fault);
      files := found;
      if err.Some? { return; }
      var names := ToPrune(Names(found), keepN);
      for i := 0 to |names|
        invariant entries == old(entries) - Removed(names[..i], deleteFault)
      {
        RemovedOneMore(names, i, deleteFault);
        err := Delete(names[i], deleteFault(names[i]));
      }
      assert names[..|names|] == names;
    }
  }

  /** The files a pruning pass really deletes. */
  function Removed(names: seq<string>, deleteFault: string -> Option<Error>): set<string> {
    set name | name in names && ValidName(name) && deleteFault(name).None?
  }

  lemma RemovedOneMore(names: seq<string>, i: nat, deleteFault: string -> Option<Error>)
    requires i < |names|
    ensures Removed(names[..i + 1], deleteFault) ==
            Removed(names[..i], deleteFault) + if ValidName(names[i]) && deleteFault(names[i]).None? then {names[i]} else {}
  {}

  /** When the file system deletes what it is asked to, retention leaves exactly N dumps,
      or all when there are no more, if and only if every name it gives up is one the
      delete accepts. */
  lemma RetentionIsExactIffNamesAreValid(entries: map<string, Entry>, files: seq<BackupFile>, keepN: int, deleteFault: string -> Option<Error>)
    requires Lists(entries, files) && forall name :: deleteFault(name).None?
    ensures
      |Dumps(entries - Removed(ToPrune(Names(files), keepN), deleteFault))|
        == (if 0 < keepN < |Dumps(entries)| then keepN else |Dumps(entries)|)
      <==> forall name :: name in Pruned(files, keepN) ==> ValidName(name)
  {
    hide ValidName, Lists, ToPrune, Names, IsDump;
    PrunedCount(entries, files, keepN);
    var pruned := Pruned(files, keepN);
    var left := entries - Removed(ToPrune(Names(files), keepN), deleteFault);
    var stuck := set name | name in pruned && !ValidName(name);
    assert Dumps(left) == (Dumps(entries) - pruned) + stuck;
    if stuck != {} {
      var name :| name in stuck;
      assert name in pruned && !ValidName(name);
    } else {
      forall name | name in pruned ensures ValidName(name) { assert name !in stuck; }
    }
  }

  /** A directory of two dumps: one as the scheduler names them, and an older one that the
      delete refuses for the space in its name. */
  const SCHEDULED := "dune-20260608-221705.dump"
  const MISNAMED := "my dump.dump"

  function TwoDumps(newer: Info, older: Info): map<string, Entry> {
    map[SCHEDULED := Entry(false, Some(newer)), MISNAMED := Entry(false, Some(older))]
  }

  lemma TwoDumpNames(newer: Info, older: Info)
    ensures Dumps(TwoDumps(newer, older)) == {SCHEDULED, MISNAMED} && SCHEDULED != MISNAMED
    ensures !ValidName(MISNAMED)
  {
    assert SCHEDULED[0] == 'd' && MISNAMED[0] == 'm' && !NameChar(MISNAMED[2]);
    assert SCHEDULED[|SCHEDULED| - |SUFFIX|..] == SUFFIX && MISNAMED[|MISNAMED| - |SUFFIX|..] == SUFFIX;
  }

  /** Keeping one of these two, every pruning pass gives up the misnamed one, fails to
      delete it, and leaves the directory as it was: two dumps stay where one should. */
  lemma MisnamedDumpStays(newer: Info, older: Info, files: seq<BackupFile>, deleteFault: string -> Option<Error>)
    requires older.modified / NANOSECONDS < newer.modified / NANOSECONDS < Timestamps.EndOfYear9999()
    requires Lists(TwoDumps(newer, older), files)
    ensures Pruned(files, 1) == {MISNAMED}
    ensures TwoDumps(newer, older) - Removed(ToPrune(Names(files), 1), deleteFault) == TwoDumps(newer, older)
    ensures |Dumps(TwoDumps(newer, older))| == 2
  {
    hide Lists, Dumps, ValidName, ToPrune, Names, HasSuffix, Timestamps.EndOfYear9999;
    var entries := TwoDumps(newer, older);
    TwoDumpNames(newer, older);
    RetentionKeepsTheNewest(entries, files, 1);
    KeepsOne(entries, files);
    KeptIsNewer(entries, files, SCHEDULED, MISNAMED);
    OneOfTwo(SCHEDULED, MISNAMED, Pruned(files, 1));
  }

  lemma KeptIsNewer(entries: map<string, Entry>, files: seq<BackupFile>, gone: string, kept: string)
    requires Lists(entries, files)
    requires forall name :: name in Dumps(entries) ==> Second(entries, name) < Timestamps.EndOfYear9999()
    ensures gone in Pruned(files, 1) && gone in Dumps(entries) && kept in Dumps(entries) - Pruned(files, 1) ==>
              Second(entries, gone) <= Second(entries, kept)
  {
    hide Lists, Dumps, Pruned, Second, Timestamps.EndOfYear9999;
    RetentionKeepsTheNewest(entries, files, 1);
  }

  lemma OneOfTwo(a: string, b: string, s: set<string>)
    requires a != b && s <= {a, b} && |{a, b} - s| == 1
    ensures s == {a} || s == {b}
  {
    var rest := {a, b} - s;
    var x :| x in rest;
    assert |rest - {x}| == 0;
    assert rest == {x} && s == {a, b} - {x};
  }

  lemma KeepsOne(entries: map<string, Entry>, files: seq<BackupFile>)
    requires |Dumps(entries) - Pruned(files, 1)| == if 1 < |Dumps(entries)| then 1 else |Dumps(entries)|
    ensures |Dumps(entries)| >= 1 ==> |Dumps(entries) - Pruned(files, 1)| == 1
  {}

  // ----- What is listed, and what may be deleted -----

  /** The listing shows a name exactly when it is that of a readable file, not a directory,
      ending in ".dump", with its size and the time of its modification. */
  lemma ListedExactly(entries: map<string, Entry>, files: seq<BackupFile>, name: string)
    requires Lists(entries, files)
    ensures (exists f :: f in files && f.name == name) <==>
            name in entries && !entries[name].isDir && entries[name].info.Some?
            && |name| >= 5 && name[|name| - 5..] == ".dump"
    ensures forall f :: f in files && f.name == name ==>
              name in entries && entries[name].info.Some? && f.size == entries[name].info.value.size
              && f.modified == Timestamps.Format(entries[name].info.value.modified / 1_000_000_000)
  {
    hide Timestamps.Format;
    if name in entries && !entries[name].isDir && entries[name].info.Some? && |name| >= 5 && name[|name| - 5..] == ".dump" {
      var f := FileOf(name, entries[name].info.value);
      assert Shows(entries, f);
    }
  }

  /** Separators, "..", spaces and a bare or missing suffix are all refused. */
  lemma RefusedNames(name: string)
    ensures '/' in name || '\\' in name || ' ' in name ==> !ValidName(name)
    ensures (exists i :: 0 <= i < |name| - 1 && name[i] == '.' && name[i + 1] == '.') ==> !ValidName(name)
    ensures |name| <= 5 || name[|name| - 5..] != ".dump" ==> !ValidName(name)
  {
    if i :| 0 <= i < |name| - 1 && name[i] == '.' && name[i + 1] == '.' {
      assert !ValidName(name);
    }
  }

  /** Letters, digits, '_' and '-' may be used freely, and single dots between them. */
  lemma AcceptedNames(stem: string, rest: string)
    requires stem != "" && rest != "" && Plain(stem) && Plain(rest)
    ensures ValidName(stem + ".dump") && ValidName(stem + "." + rest + ".dump")
  {
    var one, two := stem + ".dump", stem + "." + rest + ".dump";
    assert one[|one| - 5..] == ".dump" && two[|two| - 5..] == ".dump";
    forall i | 0 <= i < |one| - 1 ensures !(one[i] == '.' && one[i + 1] == '.') {
      if i < |stem| { assert one[i] == stem[i]; }
    }
    forall i | 0 <= i < |two| - 1 ensures !(two[i] == '.' && two[i + 1] == '.') {
      if i < |stem| {
        assert two[i] == stem[i];
      } else if i == |stem| {
        assert two[i + 1] == rest[0];
      } else if i < |stem| + 1 + |rest| {
        assert two[i] == rest[i - |stem| - 1];
      }
    }
  }

  predicate Plain(text: string) {
    forall i :: 0 <= i < |text| ==>
      'A' <= text[i] <= 'Z' || 'a' <= text[i] <= 'z' || '0' <= text[i] <= '9' || text[i] == '_' || text[i] == '-'
  }
}
