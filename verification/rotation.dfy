/**
 * Size-rotated log files of core/src/log.rs. The directory is a map from names to contents, and a
 * content is the list of records that were written to it; the compressed variant of a file holds the
 * same content under a different name.
 */
module LogRotation {
  import opened Wrappers
  import opened Sequences

  type Record = seq<bv8>
  type Content = seq<Record>

  /** The log itself, its numbered backups, and the backups named after a time stamp. */
  datatype Name = Active | Backup(index: nat, gzip: bool) | Stamped(stamp: nat, gzip: bool)

  type Directory = map<Name, Content>

  datatype Policy = Policy(maxBytes: nat, maxBackups: nat)

  function Size(content: Content): nat {
    |Flatten(content)|
  }

  // ---------------------------------------------------------------- the file operations

  function Rename(dir: Directory, from: Name, to: Name): Directory
    requires from in dir && from != to
  {
    dir[to := dir[from]] - {from}
  }

  /** The plain variant when there is one, else the compressed one. */
  function ExistingBackup(dir: Directory, index: nat): Option<Name> {
    if Backup(index, false) in dir then Some(Backup(index, false))
    else if Backup(index, true) in dir then Some(Backup(index, true))
    else None
  }

  function RemoveBackup(dir: Directory, index: nat): Directory {
    dir - {Backup(index, false)} - {Backup(index, true)}
  }

  function MoveOne(dir: Directory, index: nat): Directory {
    var from := ExistingBackup(dir, index);
    if from.None? then dir else Rename(dir, from.value, Backup(index + 1, from.value.gzip))
  }

  /** Every backup from `top` down to 1 moves one place up. */
  function MoveBackups(dir: Directory, top: nat): Directory
    decreases top
  {
    if top == 0 then dir else MoveBackups(MoveOne(dir, top), top - 1)
  }

  function CloseTo(dir: Directory, plain: Name, gzipped: Name, gzip: bool): Directory
    requires Active in dir && plain != Active && gzipped != Active && plain != gzipped
  {
    var renamed := Rename(dir, Active, plain);
    if gzip then Rename(renamed, plain, gzipped) else renamed
  }

  function Rotated(p: Policy, dir: Directory, stamp: nat, gzip: bool): Directory
    requires Active in dir
  {
    var closed :=
      if p.maxBackups == 0 then CloseTo(dir, Stamped(stamp, false), Stamped(stamp, true), gzip)
      else
        var moved := MoveBackups(RemoveBackup(dir, p.maxBackups), p.maxBackups - 1);
        if Active in moved then CloseTo(moved, Backup(1, false), Backup(1, true), gzip) else moved;
    closed[Active := []]
  }

  predicate MustRotate(p: Policy, bytesWritten: nat, record: Record) {
    bytesWritten > 0 && bytesWritten + |record| > p.maxBytes
  }

  function Written(p: Policy, dir: Directory, bytesWritten: nat, record: Record, stamp: nat, gzip: bool): Directory
    requires Active in dir
  {
    var ready := if MustRotate(p, bytesWritten, record) then Rotated(p, dir, stamp, gzip) else dir;
    ready[Active := (if Active in ready then ready[Active] else []) + [record]]
  }

  // ---------------------------------------------------------------- the reference

  /** The same stream cut into files, with no directory in sight: the closed ones, oldest first, and the open one. */
  datatype History = History(closed: seq<Content>, active: Content)

  function Cut(p: Policy, h: History, record: Record): History {
    if MustRotate(p, Size(h.active), record) then History(h.closed + [h.active], [record])
    else History(h.closed, h.active + [record])
  }

  function All(h: History): Content {
    Flatten(h.closed) + h.active
  }

  /** At most `maxBytes`, unless only the last record has any bytes. */
  predicate Fits(p: Policy, content: Content) {
    Size(content) <= p.maxBytes || (content != [] && Size(content[..|content| - 1]) == 0)
  }

  ghost predicate WellCut(p: Policy, h: History) {
    Fits(p, h.active) && forall i :: 0 <= i < |h.closed| ==> Fits(p, h.closed[i])
  }

  lemma SizeAppend(content: Content, record: Record)
    ensures Size(content + [record]) == Size(content) + |record|
  {
    FlattenAppend(content, record);
  }

  lemma CutLosesNothing(p: Policy, h: History, record: Record)
    ensures All(Cut(p, h, record)) == All(h) + [record]
  {
    FlattenAppend(h.closed, h.active);
  }

  lemma AppendFits(p: Policy, content: Content, record: Record)
    requires !MustRotate(p, Size(content), record)
    ensures Fits(p, content + [record])
  {
    SizeAppend(content, record);
    assert (content + [record])[..|content|] == content;
  }

  lemma RecordFits(p: Policy, record: Record)
    ensures Fits(p, [record])
  {
    AppendFits(p, [], record);
    assert [] + [record] == [record];
  }

  lemma CutFits(p: Policy, h: History, record: Record)
    requires WellCut(p, h)
    ensures WellCut(p, Cut(p, h, record))
  {
    var cut := Cut(p, h, record);
    if MustRotate(p, Size(h.active), record) {
      RecordFits(p, record);
      forall i | 0 <= i < |cut.closed| ensures Fits(p, cut.closed[i]) {
        if i < |h.closed| {
          assert cut.closed[i] == h.closed[i];
        }
      }
    } else {
      AppendFits(p, h.active, record);
    }
  }

  // ---------------------------------------------------------------- numbered backups

  /** What the backup of this index holds, if there is one. */
  function Slot(dir: Directory, index: nat): Option<Content> {
    var name := ExistingBackup(dir, index);
    if name.None? then None else Some(dir[name.value])
  }

  /** And whether it is compressed. */
  function Variant(dir: Directory, index: nat): Option<bool> {
    var name := ExistingBackup(dir, index);
    if name.None? then None else Some(name.value.gzip)
  }

  predicate OneVariant(dir: Directory, index: nat) {
    !(Backup(index, false) in dir && Backup(index, true) in dir)
  }

  ghost predicate OneVariantEach(dir: Directory) {
    forall i {:trigger OneVariant(dir, i)} :: OneVariant(dir, i)
  }

  /** Nothing but numbered backups differs. */
  predicate SameElsewhere(a: Directory, b: Directory, name: Name) {
    !name.Backup? ==> ((name in a <==> name in b) && (name in a && name in b ==> a[name] == b[name]))
  }

  /** Backup `index` is the `index`-th most recently closed file, as far as the policy reaches. */
  function Expected(p: Policy, h: History, index: nat): Option<Content> {
    if 1 <= index <= p.maxBackups && index <= |h.closed| then Some(h.closed[|h.closed| - index]) else None
  }

  ghost predicate InPlace(p: Policy, dir: Directory, h: History, index: nat) {
    Slot(dir, index) == Expected(p, h, index) && OneVariant(dir, index)
  }

  ghost predicate Numbered(p: Policy, dir: Directory, h: History) {
    && Active in dir && dir[Active] == h.active
    && (forall i {:trigger InPlace(p, dir, h, i)} :: InPlace(p, dir, h, i))
    && (forall s, g :: Stamped(s, g) !in dir)
  }

  lemma MoveOneAt(dir: Directory, k: nat, i: nat)
    requires OneVariant(dir, k) && OneVariant(dir, i) && Slot(dir, k + 1) == None
    ensures var moved := MoveOne(dir, k);
      && OneVariant(moved, i)
      && Slot(moved, i) == (if i == k then None else if i == k + 1 then Slot(dir, k) else Slot(dir, i))
      && Variant(moved, i) == if i == k then None else if i == k + 1 then Variant(dir, k) else Variant(dir, i)
  {
  }

  lemma {:induction false} MoveBackupsAt(dir: Directory, top: nat, i: nat)
    requires OneVariantEach(dir) && Slot(dir, top + 1) == None
    ensures var moved := MoveBackups(dir, top);
      && OneVariant(moved, i)
      && Slot(moved, i) == (if i == 1 then None else if 2 <= i <= top + 1 then Slot(dir, i - 1) else Slot(dir, i))
      && Variant(moved, i) ==
        if i == 1 then None else if 2 <= i <= top + 1 then Variant(dir, i - 1) else Variant(dir, i)
    decreases top
  {
    assert OneVariant(dir, i);
    if top != 0 {
      var next := MoveOne(dir, top);
      assert OneVariant(dir, top);
      forall j ensures OneVariant(next, j) {
        assert OneVariant(dir, j);
        MoveOneAt(dir, top, j);
      }
      MoveOneAt(dir, top, top);
      MoveOneAt(dir, top, i);
      MoveBackupsAt(next, top - 1, i);
      if 2 <= i {
        assert OneVariant(dir, i - 1);
        MoveOneAt(dir, top, i - 1);
      }
    }
  }

  lemma {:induction false} MoveBackupsElsewhere(dir: Directory, top: nat, name: Name)
    requires !name.Backup?
    ensures SameElsewhere(dir, MoveBackups(dir, top), name)
    decreases top
  {
    if top != 0 {
      MoveBackupsElsewhere(MoveOne(dir, top), top - 1, name);
    }
  }

  lemma RemoveBackupAt(dir: Directory, index: nat, i: nat)
    requires OneVariant(dir, i)
    ensures var rest := RemoveBackup(dir, index);
      && OneVariant(rest, i) && Slot(rest, i) == (if i == index then None else Slot(dir, i))
      && Variant(rest, i) == if i == index then None else Variant(dir, i)
  {
  }

  lemma CloseToBackupAt(dir: Directory, gzip: bool, i: nat)
    requires Active in dir && OneVariant(dir, i) && Slot(dir, 1) == None
    ensures var closed := CloseTo(dir, Backup(1, false), Backup(1, true), gzip)[Active := []];
      && OneVariant(closed, i) && Slot(closed, i) == (if i == 1 then Some(dir[Active]) else Slot(dir, i))
      && Variant(closed, i) == if i == 1 then Some(gzip) else Variant(dir, i)
  {
  }

  lemma RotationInPlace(p: Policy, dir: Directory, h: History, stamp: nat, gzip: bool, i: nat)
    requires 0 < p.maxBackups && Numbered(p, dir, h)
    ensures InPlace(p, Rotated(p, dir, stamp, gzip), History(h.closed + [h.active], []), i)
    ensures Variant(Rotated(p, dir, stamp, gzip), i) ==
      if i == 1 then Some(gzip) else if 2 <= i <= p.maxBackups then Variant(dir, i - 1) else None
  {
    var rest := RemoveBackup(dir, p.maxBackups);
    var moved := MoveBackups(rest, p.maxBackups - 1);
    forall j ensures OneVariant(rest, j) {
      assert InPlace(p, dir, h, j);
      RemoveBackupAt(dir, p.maxBackups, j);
    }
    assert InPlace(p, dir, h, p.maxBackups);
    RemoveBackupAt(dir, p.maxBackups, p.maxBackups);
    MoveBackupsAt(rest, p.maxBackups - 1, i);
    MoveBackupsAt(rest, p.maxBackups - 1, 1);
    MoveBackupsElsewhere(rest, p.maxBackups - 1, Active);
    CloseToBackupAt(moved, gzip, i);
    assert InPlace(p, dir, h, i);
    RemoveBackupAt(dir, p.maxBackups, i);
    if i > 0 {
      assert InPlace(p, dir, h, i - 1);
      RemoveBackupAt(dir, p.maxBackups, i - 1);
    }
  }

  lemma RotationKeepsNumbered(p: Policy, dir: Directory, h: History, stamp: nat, gzip: bool)
    requires 0 < p.maxBackups && Numbered(p, dir, h)
    ensures Numbered(p, Rotated(p, dir, stamp, gzip), History(h.closed + [h.active], []))
  {
    var rest := RemoveBackup(dir, p.maxBackups);
    MoveBackupsElsewhere(rest, p.maxBackups - 1, Active);
    forall i ensures InPlace(p, Rotated(p, dir, stamp, gzip), History(h.closed + [h.active], []), i) {
      RotationInPlace(p, dir, h, stamp, gzip, i);
    }
    forall s, g ensures Stamped(s, g) !in Rotated(p, dir, stamp, gzip) {
      MoveBackupsElsewhere(rest, p.maxBackups - 1, Stamped(s, g));
    }
  }

  lemma AppendKeepsNumbered(p: Policy, dir: Directory, h: History, record: Record)
    requires Numbered(p, dir, h)
    ensures Numbered(p, dir[Active := h.active + [record]], History(h.closed, h.active + [record]))
  {
    var longer := dir[Active := h.active + [record]];
    forall i ensures InPlace(p, longer, History(h.closed, h.active + [record]), i) {
      assert InPlace(p, dir, h, i);
    }
  }

  lemma WriteKeepsNumbered(p: Policy, dir: Directory, h: History, record: Record, stamp: nat, gzip: bool)
    requires 0 < p.maxBackups && Numbered(p, dir, h)
    ensures Numbered(p, Written(p, dir, Size(h.active), record, stamp, gzip), Cut(p, h, record))
  {
    if MustRotate(p, Size(h.active), record) {
      RotationKeepsNumbered(p, dir, h, stamp, gzip);
      AppendKeepsNumbered(p, Rotated(p, dir, stamp, gzip), History(h.closed + [h.active], []), record);
      assert [] + [record] == [record];
    } else {
      AppendKeepsNumbered(p, dir, h, record);
    }
  }

  // ---------------------------------------------------------------- runs

  /** One call of the writer: the record, the clock, and whether rotated files are compressed just now. */
  datatype Write = Write(record: Record, stamp: nat, gzip: bool)

  datatype Log = Log(dir: Directory, bytesWritten: nat)

  function Next(p: Policy, log: Log, w: Write): Log {
    if Active !in log.dir then log
    else
      Log(Written(p, log.dir, log.bytesWritten, w.record, w.stamp, w.gzip),
          (if MustRotate(p, log.bytesWritten, w.record) then 0 else log.bytesWritten) + |w.record|)
  }

  /** From a clean directory. */
  function After(p: Policy, writes: seq<Write>): Log {
    if writes == [] then Log(map[Active := []], 0)
    else Next(p, After(p, writes[..|writes| - 1]), writes[|writes| - 1])
  }

  function HistoryOf(p: Policy, writes: seq<Write>): History {
    if writes == [] then History([], [])
    else Cut(p, HistoryOf(p, writes[..|writes| - 1]), writes[|writes| - 1].record)
  }

  function Records(writes: seq<Write>): Content {
    if writes == [] then [] else Records(writes[..|writes| - 1]) + [writes[|writes| - 1].record]
  }

  lemma {:induction false} HistoryIsWellCut(p: Policy, writes: seq<Write>)
    ensures WellCut(p, HistoryOf(p, writes)) && All(HistoryOf(p, writes)) == Records(writes)
  {
    if writes != [] {
      HistoryIsWellCut(p, writes[..|writes| - 1]);
      CutFits(p, HistoryOf(p, writes[..|writes| - 1]), writes[|writes| - 1].record);
      CutLosesNothing(p, HistoryOf(p, writes[..|writes| - 1]), writes[|writes| - 1].record);
    }
  }

  /** There was no room in the file for the first record of the next one. */
  predicate NoRoom(p: Policy, content: Content, next: Content) {
    0 < Size(content) && next != [] && Size(content) + |next[0]| > p.maxBytes
  }

  function FileAfter(h: History, i: nat): Content
    requires i < |h.closed|
  {
    if i + 1 < |h.closed| then h.closed[i + 1] else h.active
  }

  /** Files are closed only for want of room: none is empty, and the next record would not have fitted. */
  lemma {:induction false} ClosedForWantOfRoom(p: Policy, writes: seq<Write>, i: nat)
    requires i < |HistoryOf(p, writes).closed|
    ensures NoRoom(p, HistoryOf(p, writes).closed[i], FileAfter(HistoryOf(p, writes), i))
  {
    if writes != [] {
      var before := writes[..|writes| - 1];
      if i < |HistoryOf(p, before).closed| {
        ClosedForWantOfRoom(p, before, i);
      }
    }
  }

  /** So nothing is closed, and nothing can be lost, while all that was written fits into one file. */
  lemma NothingClosedWhileAllFits(p: Policy, writes: seq<Write>)
    requires Size(Records(writes)) <= p.maxBytes
    ensures HistoryOf(p, writes) == History([], Records(writes))
  {
    var h := HistoryOf(p, writes);
    HistoryIsWellCut(p, writes);
    if h.closed != [] {
      ClosedForWantOfRoom(p, writes, 0);
      FirstTwoFiles(h);
      assert false;
    }
  }

  lemma FirstTwoFiles(h: History)
    requires h.closed != [] && FileAfter(h, 0) != []
    ensures Size(h.closed[0]) + |FileAfter(h, 0)[0]| <= Size(All(h))
  {
    var rest := Flatten(h.closed[1..]) + h.active;
    assert All(h) == h.closed[0] + rest;
    FlattenConcat(h.closed[0], rest);
    assert rest[0] == FileAfter(h, 0)[0];
  }

  lemma CutSize(p: Policy, h: History, record: Record)
    ensures Size(Cut(p, h, record).active)
         == (if MustRotate(p, Size(h.active), record) then 0 else Size(h.active)) + |record|
  {
    SizeAppend(h.active, record);
    SizeAppend([], record);
    assert [] + [record] == [record];
  }

  lemma {:induction false} RunIsNumbered(p: Policy, writes: seq<Write>)
    requires 0 < p.maxBackups
    ensures Numbered(p, After(p, writes).dir, HistoryOf(p, writes))
    ensures After(p, writes).bytesWritten == Size(HistoryOf(p, writes).active)
  {
    if writes == [] {
      forall i ensures InPlace(p, After(p, []).dir, History([], []), i) {
      }
    } else {
      var before, w := writes[..|writes| - 1], writes[|writes| - 1];
      RunIsNumbered(p, before);
      WriteKeepsNumbered(p, After(p, before).dir, HistoryOf(p, before), w.record, w.stamp, w.gzip);
      CutSize(p, HistoryOf(p, before), w.record);
    }
  }

  /** The backups from `top` down to 1, one after the other. */
  function Retained(dir: Directory, top: nat): Content {
    if top == 0 then []
    else (if Slot(dir, top).Some? then Slot(dir, top).value else []) + Retained(dir, top - 1)
  }

  lemma {:induction false} RetainedIsLatest(p: Policy, dir: Directory, h: History, top: nat)
    requires Numbered(p, dir, h) && top <= p.maxBackups
    ensures Retained(dir, top) == Flatten(h.closed[if top <= |h.closed| then |h.closed| - top else 0..])
    decreases top
  {
    if top == 0 {
      assert h.closed[|h.closed|..] == [];
    } else {
      RetainedIsLatest(p, dir, h, top - 1);
      assert InPlace(p, dir, h, top);
      if top <= |h.closed| {
        var from := |h.closed| - top;
        assert h.closed[from..][1..] == h.closed[from + 1..];
      }
    }
  }

  lemma LatestIsSuffix(h: History, n: nat, kept: Content)
    requires kept == Flatten(h.closed[if n <= |h.closed| then |h.closed| - n else 0..]) + h.active
    ensures |kept| <= |All(h)| && kept == All(h)[|All(h)| - |kept|..]
    ensures |h.closed| <= n ==> kept == All(h)
  {
    var from := if n <= |h.closed| then |h.closed| - n else 0;
    FlattenConcat(h.closed[..from], h.closed[from..]);
    assert h.closed == h.closed[..from] + h.closed[from..];
    assert All(h) == Flatten(h.closed[..from]) + kept;
  }

  lemma NumberedKeepsTheEnd(p: Policy, dir: Directory, h: History)
    requires Numbered(p, dir, h)
    ensures var kept := Retained(dir, p.maxBackups) + dir[Active];
      && |kept| <= |All(h)| && kept == All(h)[|All(h)| - |kept|..]
      && (|h.closed| <= p.maxBackups ==> kept == All(h))
  {
    RetainedIsLatest(p, dir, h, p.maxBackups);
    LatestIsSuffix(h, p.maxBackups, Retained(dir, p.maxBackups) + dir[Active]);
  }

  /**
   * Rotation loses only the oldest data. Whatever was written, and whenever compression was switched
   * on or off, the backups from the highest index to 1 followed by the log itself are the end of
   * everything written, and all of it until more than `maxBackups` files have been closed.
   */
  lemma OnlyTheOldestIsLost(p: Policy, writes: seq<Write>)
    requires 0 < p.maxBackups
    ensures var dir := After(p, writes).dir;
      && Active in dir
      && var kept := Retained(dir, p.maxBackups) + dir[Active];
      && |kept| <= |Records(writes)| && kept == Records(writes)[|Records(writes)| - |kept|..]
      && (|HistoryOf(p, writes).closed| <= p.maxBackups ==> kept == Records(writes))
  {
    RunIsNumbered(p, writes);
    HistoryIsWellCut(p, writes);
    NumberedKeepsTheEnd(p, After(p, writes).dir, HistoryOf(p, writes));
  }

  /** The compression settings under which files were closed, in order. */
  function Settings(p: Policy, writes: seq<Write>): seq<bool> {
    if writes == [] then []
    else
      var before, w := writes[..|writes| - 1], writes[|writes| - 1];
      var closes := |HistoryOf(p, writes).closed| > |HistoryOf(p, before).closed|;
      if closes then Settings(p, before) + [w.gzip] else Settings(p, before)
  }

  lemma WrittenVariant(p: Policy, dir: Directory, h: History, w: Write, i: nat, written: Directory)
    requires 0 < p.maxBackups && Numbered(p, dir, h)
    requires written == Written(p, dir, Size(h.active), w.record, w.stamp, w.gzip)
    ensures Variant(written, i) ==
      if !MustRotate(p, Size(h.active), w.record) then Variant(dir, i)
      else if i == 1 then Some(w.gzip)
      else if 2 <= i <= p.maxBackups then Variant(dir, i - 1)
      else None
  {
    if MustRotate(p, Size(h.active), w.record) {
      var rotated := Rotated(p, dir, w.stamp, w.gzip);
      RotationInPlace(p, dir, h, w.stamp, w.gzip, i);
      ActiveIsNoBackup(rotated, written[Active], i);
    } else {
      ActiveIsNoBackup(dir, written[Active], i);
    }
  }

  lemma SettingsStep(p: Policy, writes: seq<Write>, before: seq<Write>, w: Write)
    requires writes == before + [w]
    ensures Settings(p, writes) ==
      Settings(p, before) + if MustRotate(p, Size(HistoryOf(p, before).active), w.record) then [w.gzip] else []
    ensures |HistoryOf(p, writes).closed| ==
      |HistoryOf(p, before).closed| + if MustRotate(p, Size(HistoryOf(p, before).active), w.record) then 1 else 0
  {
    assert writes[..|writes| - 1] == before;
  }

  /** How the variants have to be when files were closed under these settings. */
  function VariantFor(p: Policy, settings: seq<bool>, i: nat): Option<bool> {
    if 1 <= i <= p.maxBackups && i <= |settings| then Some(settings[|settings| - i]) else None
  }

  /** A backup is compressed if and only if compression was on when its file was closed, however far it has moved. */
  lemma {:induction false} CompressedAsSet(p: Policy, writes: seq<Write>, i: nat)
    requires 0 < p.maxBackups
    ensures |Settings(p, writes)| == |HistoryOf(p, writes).closed|
    ensures Variant(After(p, writes).dir, i) == VariantFor(p, Settings(p, writes), i)
  {
    if writes != [] {
      var before, w := writes[..|writes| - 1], writes[|writes| - 1];
      RunIsNumbered(p, before);
      SettingsStep(p, writes, before, w);
      CompressedAsSet(p, before, i);
      if i > 0 {
        CompressedAsSet(p, before, i - 1);
      }
      WrittenVariant(p, After(p, before).dir, HistoryOf(p, before), w, i, After(p, writes).dir);
    }
  }

  lemma ActiveIsNoBackup(dir: Directory, content: Content, i: nat)
    ensures Variant(dir[Active := content], i) == Variant(dir, i)
  {
  }

  /**
   * The shape of the directory: backups are contiguous from 1, one variant each, never more than
   * `maxBackups`, and every file keeps to the size limit unless a single record exceeds it.
   */
  lemma DirectoryShape(p: Policy, writes: seq<Write>, index: nat)
    requires 0 < p.maxBackups
    ensures var dir, closed := After(p, writes).dir, |HistoryOf(p, writes).closed|;
      && (Slot(dir, index).Some? <==> 1 <= index <= p.maxBackups && index <= closed)
      && OneVariant(dir, index)
      && (Slot(dir, index).Some? ==> Fits(p, Slot(dir, index).value))
      && Active in dir && Fits(p, dir[Active])
      && forall s, g :: Stamped(s, g) !in dir
  {
    RunIsNumbered(p, writes);
    HistoryIsWellCut(p, writes);
    assert InPlace(p, After(p, writes).dir, HistoryOf(p, writes), index);
  }

  // ---------------------------------------------------------------- stamped backups

  /** The stamps under which files were closed, in order. */
  function Stamps(p: Policy, writes: seq<Write>): seq<nat> {
    if writes == [] then []
    else
      var before, w := writes[..|writes| - 1], writes[|writes| - 1];
      var rotates := MustRotate(p, Size(HistoryOf(p, before).active), w.record);
      if rotates then Stamps(p, before) + [w.stamp] else Stamps(p, before)
  }

  /** The file closed under this stamp holds exactly this. */
  ghost predicate StampHolds(dir: Directory, stamp: nat, content: Content) {
    exists g :: Stamped(stamp, g) in dir && Stamped(stamp, !g) !in dir && dir[Stamped(stamp, g)] == content
  }

  ghost predicate StampsHold(dir: Directory, stamps: seq<nat>, closed: seq<Content>) {
    |stamps| == |closed| && forall i {:trigger stamps[i]} :: 0 <= i < |stamps| ==> StampHolds(dir, stamps[i], closed[i])
  }

  predicate OnlyStamps(dir: Directory, stamps: seq<nat>) {
    forall name :: name in dir ==> name == Active || (name.Stamped? && name.stamp in stamps)
  }

  lemma CloseToStamp(dir: Directory, stamp: nat, gzip: bool, other: nat, content: Content)
    requires Active in dir && Stamped(stamp, false) !in dir && Stamped(stamp, true) !in dir
    ensures var closed := CloseTo(dir, Stamped(stamp, false), Stamped(stamp, true), gzip)[Active := []];
      && StampHolds(closed, stamp, dir[Active])
      && (StampHolds(dir, other, content) ==> StampHolds(closed, other, content))
  {
    var closed := CloseTo(dir, Stamped(stamp, false), Stamped(stamp, true), gzip)[Active := []];
    assert Stamped(stamp, gzip) in closed && Stamped(stamp, !gzip) !in closed;
    if StampHolds(dir, other, content) {
      var g :| Stamped(other, g) in dir && Stamped(other, !g) !in dir && dir[Stamped(other, g)] == content;
      assert other != stamp;
      assert Stamped(other, g) in closed && Stamped(other, !g) !in closed;
    }
  }

  ghost predicate Kept(dir: Directory, h: History, stamps: seq<nat>) {
    && Active in dir && dir[Active] == h.active
    && StampsHold(dir, stamps, h.closed) && OnlyStamps(dir, stamps)
  }

  lemma RotationKeepsAll(p: Policy, dir: Directory, h: History, stamps: seq<nat>, stamp: nat, gzip: bool)
    requires p.maxBackups == 0 && Kept(dir, h, stamps) && stamp !in stamps
    ensures Kept(Rotated(p, dir, stamp, gzip), History(h.closed + [h.active], []), stamps + [stamp])
  {
    var closed, longer, files := Rotated(p, dir, stamp, gzip), stamps + [stamp], h.closed + [h.active];
    forall i | 0 <= i < |longer| ensures StampHolds(closed, longer[i], files[i]) {
      CloseToStamp(dir, stamp, gzip, longer[i], files[i]);
      if i < |stamps| {
        assert StampHolds(dir, stamps[i], h.closed[i]);
      }
    }
  }

  lemma AppendKeepsAll(dir: Directory, h: History, stamps: seq<nat>, record: Record)
    requires Kept(dir, h, stamps)
    ensures Kept(dir[Active := h.active + [record]], History(h.closed, h.active + [record]), stamps)
  {
    var longer := dir[Active := h.active + [record]];
    forall i | 0 <= i < |stamps| ensures StampHolds(longer, stamps[i], h.closed[i]) {
      assert StampHolds(dir, stamps[i], h.closed[i]);
      var g :| Stamped(stamps[i], g) in dir && Stamped(stamps[i], !g) !in dir
        && dir[Stamped(stamps[i], g)] == h.closed[i];
      assert Stamped(stamps[i], g) in longer && Stamped(stamps[i], !g) !in longer;
    }
  }

  /** Without numbered backups nothing is lost, as long as no two rotations read the same time stamp. */
  lemma {:induction false} StampedBackupsLoseNothing(p: Policy, writes: seq<Write>)
    requires p.maxBackups == 0 && NoDuplicates(Stamps(p, writes))
    ensures Kept(After(p, writes).dir, HistoryOf(p, writes), Stamps(p, writes))
    ensures After(p, writes).bytesWritten == Size(HistoryOf(p, writes).active)
    ensures All(HistoryOf(p, writes)) == Records(writes)
  {
    HistoryIsWellCut(p, writes);
    if writes != [] {
      var before, w := writes[..|writes| - 1], writes[|writes| - 1];
      var stamps, h, dir := Stamps(p, before), HistoryOf(p, before), After(p, before).dir;
      assert Stamps(p, writes)[..|stamps|] == stamps;
      StampedBackupsLoseNothing(p, before);
      CutSize(p, h, w.record);
      if MustRotate(p, Size(h.active), w.record) {
        assert Stamps(p, writes)[|stamps|] == w.stamp;
        RotationKeepsAll(p, dir, h, stamps, w.stamp, w.gzip);
        var rotated, closed := Rotated(p, dir, w.stamp, w.gzip), History(h.closed + [h.active], []);
        AppendKeepsAll(rotated, closed, stamps + [w.stamp], w.record);
        assert [] + [w.record] == [w.record];
      } else {
        AppendKeepsAll(dir, h, stamps, w.record);
      }
    }
  }

  /** With one compression setting throughout, the stamped files are one for each different stamp. */
  ghost predicate OnePerStamp(dir: Directory, stamps: seq<nat>, gzip: bool) {
    && Active in dir && |dir| == 1 + |Elements(stamps)|
    && forall s {:trigger Stamped(s, gzip) in dir} ::
      (Stamped(s, gzip) in dir <==> s in stamps) && Stamped(s, !gzip) !in dir
  }

  lemma RotatedNames(p: Policy, dir: Directory, stamp: nat, gzip: bool)
    requires p.maxBackups == 0 && Active in dir && Stamped(stamp, !gzip) !in dir
    ensures Rotated(p, dir, stamp, gzip).Keys == dir.Keys + {Stamped(stamp, gzip)}
  {
  }

  lemma OneMoreStamp(dir: Directory, rotated: Directory, stamps: seq<nat>, stamp: nat, gzip: bool, s: nat)
    requires OnePerStamp(dir, stamps, gzip) && rotated.Keys == dir.Keys + {Stamped(stamp, gzip)}
    ensures (Stamped(s, gzip) in rotated <==> s in stamps + [stamp]) && Stamped(s, !gzip) !in rotated
  {
    assert Stamped(s, gzip) in dir <==> s in stamps;
    assert Stamped(s, gzip) in rotated.Keys <==> Stamped(s, gzip) in dir.Keys || s == stamp;
    assert Stamped(s, !gzip) !in rotated.Keys;
  }

  lemma RotationPerStamp(p: Policy, dir: Directory, stamps: seq<nat>, stamp: nat, gzip: bool)
    requires p.maxBackups == 0 && OnePerStamp(dir, stamps, gzip)
    ensures OnePerStamp(Rotated(p, dir, stamp, gzip), stamps + [stamp], gzip)
  {
    var rotated := Rotated(p, dir, stamp, gzip);
    assert Stamped(stamp, gzip) in dir <==> stamp in stamps;
    RotatedNames(p, dir, stamp, gzip);
    assert Elements(stamps + [stamp]) == Elements(stamps) + {stamp};
    SizeOfMap(dir);
    SizeOfMap(rotated);
    forall s ensures (Stamped(s, gzip) in rotated <==> s in stamps + [stamp]) && Stamped(s, !gzip) !in rotated {
      OneMoreStamp(dir, rotated, stamps, stamp, gzip, s);
    }
  }

  lemma SizeOfMap(dir: Directory)
    ensures |dir| == |dir.Keys|
  {
  }

  lemma {:induction false} RunPerStamp(p: Policy, writes: seq<Write>, gzip: bool)
    requires p.maxBackups == 0 && forall i :: 0 <= i < |writes| ==> writes[i].gzip == gzip
    ensures OnePerStamp(After(p, writes).dir, Stamps(p, writes), gzip)
    ensures After(p, writes).bytesWritten == Size(HistoryOf(p, writes).active)
    ensures |Stamps(p, writes)| == |HistoryOf(p, writes).closed|
  {
    if writes == [] {
      assert Elements<nat>([]) == {};
    } else {
      var before, w := writes[..|writes| - 1], writes[|writes| - 1];
      RunPerStamp(p, before, gzip);
      CutSize(p, HistoryOf(p, before), w.record);
      var dir := After(p, before).dir;
      if MustRotate(p, Size(HistoryOf(p, before).active), w.record) {
        RotationPerStamp(p, dir, Stamps(p, before), w.stamp, gzip);
        assert After(p, writes).dir.Keys == Rotated(p, dir, w.stamp, gzip).Keys;
      } else {
        assert After(p, writes).dir.Keys == dir.Keys;
      }
    }
  }

  /** The condition is exact: every closed file still has a file of its own if and only if the stamps differ. */
  lemma OwnFileIffStampsDiffer(p: Policy, writes: seq<Write>, gzip: bool)
    requires p.maxBackups == 0 && forall i :: 0 <= i < |writes| ==> writes[i].gzip == gzip
    ensures |After(p, writes).dir| == 1 + |HistoryOf(p, writes).closed| <==> NoDuplicates(Stamps(p, writes))
  {
    RunPerStamp(p, writes, gzip);
    SizeWithRepetitions(Stamps(p, writes));
  }

  /** Two rotations that read the same stamp: the second closed file replaces the first, whose record is nowhere. */
  lemma EqualStampsLoseAFile(stamp: nat)
    ensures var p := Policy(1, 0);
      var writes := [Write([1], stamp, false), Write([2], stamp, false), Write([3], stamp, false)];
      && Stamps(p, writes) == [stamp, stamp]
      && HistoryOf(p, writes) == History([[[1]], [[2]]], [[3]])
      && After(p, writes).dir == map[Active := [[3]], Stamped(stamp, false) := [[2]]]
  {
    var p := Policy(1, 0);
    var a, b, c := Write([1], stamp, false), Write([2], stamp, false), Write([3], stamp, false);
    FirstWrite(p, [a]);
    ClosesAFile(p, [a], b, [a, b]);
    ClosesAFile(p, [a, b], c, [a, b, c]);
  }

  lemma FirstWrite(p: Policy, writes: seq<Write>)
    requires |writes| == 1
    ensures After(p, writes) == Log(map[Active := [writes[0].record]], |writes[0].record|)
    ensures HistoryOf(p, writes) == History([], [writes[0].record]) && Stamps(p, writes) == []
    ensures Size(HistoryOf(p, writes).active) == |writes[0].record|
  {
    assert writes[..0] == [] && [] + [writes[0].record] == [writes[0].record];
    SizeAppend([], writes[0].record);
  }

  /** A write that finds one byte in the log and no room closes the file under its stamp, over what was there. */
  lemma ClosesAFile(p: Policy, before: seq<Write>, w: Write, writes: seq<Write>)
    requires writes == before + [w] && !w.gzip
    requires p.maxBackups == 0 && MustRotate(p, 1, w.record) && Active in After(p, before).dir
    requires After(p, before).bytesWritten == 1 == Size(HistoryOf(p, before).active)
    ensures var dir := After(p, before).dir;
      After(p, writes) == Log(dir[Stamped(w.stamp, false) := dir[Active]][Active := [w.record]], |w.record|)
    ensures HistoryOf(p, writes) == History(HistoryOf(p, before).closed + [HistoryOf(p, before).active], [w.record])
    ensures Stamps(p, writes) == Stamps(p, before) + [w.stamp]
    ensures Size(HistoryOf(p, writes).active) == |w.record|
  {
    assert writes[..|writes| - 1] == before && writes[|writes| - 1] == w;
    assert [] + [w.record] == [w.record];
    SizeAppend([], w.record);
  }

  // ---------------------------------------------------------------- the rotating file

  class RotatingFile {
    const policy: Policy
    const compressRotated: bool
    /** The directory. */
    var files: Directory
    var bytesWritten: nat
    /** The stream so far, cut into files. */
    ghost var history: History

    ghost predicate Valid()
      reads this
    {
      && bytesWritten == Size(history.active)
      && Active in files && files[Active] == history.active
      && (policy.maxBackups > 0 ==> Numbered(policy, files, history))
    }

    constructor (policy: Policy, compressRotated: bool)
      ensures Valid() && history == History([], [])
      ensures this.policy == policy && this.compressRotated == compressRotated && files == map[Active := []]
    {
      this.policy, this.compressRotated := policy, compressRotated;
      files, bytesWritten, history := map[Active := []], 0, History([], []);
      new;
      forall i ensures InPlace(policy, files, history, i) {
      }
    }

    method CompressFile(plain: Name, gzipped: Name)
      requires plain in files && plain != gzipped
      modifies `files
      ensures files == Rename(old(files), plain, gzipped)
    {
      files := files[gzipped := files[plain]];
      files := files - {plain};
    }

    method RotateSize(now: nat)
      requires Active in files
      modifies `files, `bytesWritten
      ensures files == Rotated(policy, old(files), now, compressRotated) && bytesWritten == 0
    {
      if policy.maxBackups == 0 {
        files := Rename(files, Active, Stamped(now, false));
        if compressRotated {
          CompressFile(Stamped(now, false), Stamped(now, true));
        }
      } else {
        files := RemoveBackup(files, policy.maxBackups);
        ShiftBackups();
        if Active in files {
          files := Rename(files, Active, Backup(1, false));
          if compressRotated {
            CompressFile(Backup(1, false), Backup(1, true));
          }
        }
      }
      files := files[Active := []];
      bytesWritten := 0;
    }

    method ShiftBackups()
      requires 0 < policy.maxBackups
      modifies `files
      ensures files == MoveBackups(old(files), policy.maxBackups - 1)
    {
      for index := policy.maxBackups downto 1
        invariant MoveBackups(files, index - 1) == MoveBackups(old(files), policy.maxBackups - 1)
      {
        var from := ExistingBackup(files, index);
        if from.Some? {
          files := Rename(files, from.value, Backup(index + 1, from.value.gzip));
        }
      }
    }

    /** The record ends up in the log; what is on disk afterwards is what the reference cut says. */
    method WriteAll(record: Record, now: nat)
      requires Valid()
      modifies this
      ensures Valid() && history == Cut(policy, old(history), record)
      ensures files == Written(policy, old(files), old(bytesWritten), record, now, compressRotated)
    {
      CutSize(policy, history, record);
      if policy.maxBackups > 0 {
        WriteKeepsNumbered(policy, files, history, record, now, compressRotated);
      }
      if bytesWritten > 0 && bytesWritten + |record| > policy.maxBytes {
        RotateSize(now);
      }
      files := files[Active := files[Active] + [record]];
      bytesWritten := bytesWritten + |record|;
      history := Cut(policy, history, record);
    }
  }
}
