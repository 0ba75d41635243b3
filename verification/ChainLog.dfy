/** What every run of writes leaves on disk: each location returned reads back its record. */
module ChainLog {
  import opened Ledger
  import opened ChainFiles

  datatype Write = Write(kind: Kind, data: seq<byte>)

  datatype Entry = Entry(info: FileInfo, data: seq<byte>)

  function Written(cfg: Config, writes: seq<Write>): State {
    if writes == [] then FRESH
    else var w := writes[|writes| - 1]; Wrote(cfg, Written(cfg, writes[..|writes| - 1]), w.kind, w.data)
  }

  /** Every write with the location it returned, oldest first. */
  function LogOf(cfg: Config, writes: seq<Write>): (log: seq<Entry>)
    ensures |log| == |writes|
  {
    if writes == [] then []
    else
      var w, front := writes[|writes| - 1], writes[..|writes| - 1];
      LogOf(cfg, front) + [Entry(Info(cfg, Written(cfg, front), w.kind, w.data), w.data)]
  }

  /** What a file should hold: the records located in it, in order. */
  function FileOf(log: seq<Entry>, name: string): seq<byte> {
    if log == [] then []
    else
      var last := log[|log| - 1];
      FileOf(log[..|log| - 1], name) + if last.info.fileName == name then last.data else []
  }

  function RecordsIn(log: seq<Entry>, name: string): nat {
    if log == [] then 0
    else RecordsIn(log[..|log| - 1], name) + if log[|log| - 1].info.fileName == name then 1 else 0
  }

  /** No 32-bit offset or file number overflows. */
  predicate Fits(cfg: Config, s: State, w: Write) {
    s.Of(w.kind).offset + |w.data| < U32_LIMIT && s.Of(w.kind).number + 1 < U32_LIMIT
  }

  predicate AllFit(cfg: Config, writes: seq<Write>) {
    writes == [] ||
    (AllFit(cfg, writes[..|writes| - 1]) && Fits(cfg, Written(cfg, writes[..|writes| - 1]), writes[|writes| - 1]))
  }

  ghost predicate PlacedAt(log: seq<Entry>, i: nat)
    requires i < |log|
  {
    && log[i].info.startOffset == |FileOf(log[..i], log[i].info.fileName)|
    && log[i].info.endOffset == log[i].info.startOffset + |log[i].data|
  }

  ghost predicate HeldAt(disk: Disk, log: seq<Entry>, name: string) {
    Content(disk, name) == FileOf(log, name) && (name in disk <==> RecordsIn(log, name) > 0)
  }

  /** A file stays below its limit or holds one record. */
  ghost predicate BoundedAt(cfg: Config, log: seq<Entry>, k: Kind, n: nat) {
    |FileOf(log, FileName(cfg, k, n))| < cfg.Limit(k) || RecordsIn(log, FileName(cfg, k, n)) <= 1
  }

  ghost predicate UnusedAt(cfg: Config, log: seq<Entry>, k: Kind, n: nat) {
    RecordsIn(log, FileName(cfg, k, n)) == 0
  }

  ghost predicate CursorInv(cfg: Config, s: State, log: seq<Entry>, k: Kind) {
    && s.Of(k).offset == |FileOf(log, FileName(cfg, k, s.Of(k).number))|
    && (forall n: nat :: n > s.Of(k).number ==> UnusedAt(cfg, log, k, n))
    && (forall n: nat :: BoundedAt(cfg, log, k, n))
  }

  ghost predicate Placed(log: seq<Entry>) {
    forall i: nat :: i < |log| ==> PlacedAt(log, i)
  }

  ghost predicate Held(disk: Disk, log: seq<Entry>) {
    forall name: string :: HeldAt(disk, log, name)
  }

  ghost predicate Inv(cfg: Config, s: State, log: seq<Entry>) {
    && Placed(log)
    && Held(s.disk, log)
    && CursorInv(cfg, s, log, BlockKind)
    && CursorInv(cfg, s, log, UndoKind)
  }

  lemma {:induction false} NoRecordsNoBytes(log: seq<Entry>, name: string)
    requires RecordsIn(log, name) == 0
    ensures FileOf(log, name) == []
  {
    if log != [] { NoRecordsNoBytes(log[..|log| - 1], name); }
  }

  lemma AppendedLog(log: seq<Entry>, e: Entry, name: string)
    ensures FileOf(log + [e], name) == FileOf(log, name) + if e.info.fileName == name then e.data else []
    ensures RecordsIn(log + [e], name) == RecordsIn(log, name) + if e.info.fileName == name then 1 else 0
  {
    assert (log + [e])[..|log|] == log;
  }

  lemma TurnedFits(c: Cursor, length: nat, limit: uint32)
    requires c.offset + length < U32_LIMIT && c.number + 1 < U32_LIMIT
    ensures Wrap(length) == length && Wrap(c.offset + length) == c.offset + length
    ensures Turned(c, length, limit) == if c.offset + length >= limit then Cursor(c.number + 1, 0) else c
  {
  }

  /** The cursor a fitting record is written at, and what is in its file before. */
  lemma TurnedCursor(cfg: Config, s: State, log: seq<Entry>, w: Write)
    requires CursorInv(cfg, s, log, w.kind) && Fits(cfg, s, w)
    ensures var c := Turned(s.Of(w.kind), Wrap(|w.data|), cfg.Limit(w.kind));
      var name := FileName(cfg, w.kind, c.number);
      && c.number >= s.Of(w.kind).number && c.offset == |FileOf(log, name)| && c.offset + |w.data| < U32_LIMIT
      && (c.offset + |w.data| < cfg.Limit(w.kind) || RecordsIn(log, name) == 0)
    ensures Wrap(|w.data|) == |w.data|
  {
    var c, k := s.Of(w.kind), w.kind;
    assert UnusedAt(cfg, log, k, c.number + 1);
    NoRecordsNoBytes(log, FileName(cfg, k, c.number + 1));
    TurnedFits(c, |w.data|, cfg.Limit(k));
  }

  lemma FileAfter(cfg: Config, s: State, log: seq<Entry>, w: Write, e: Entry, k: Kind, n: nat)
    requires CursorInv(cfg, s, log, w.kind) && CursorInv(cfg, s, log, k) && Fits(cfg, s, w)
    requires cfg.blockName != cfg.undoName
    requires e == Entry(Info(cfg, s, w.kind, w.data), w.data)
    ensures BoundedAt(cfg, log + [e], k, n)
    ensures n > Wrote(cfg, s, w.kind, w.data).Of(k).number ==> UnusedAt(cfg, log + [e], k, n)
  {
    TurnedCursor(cfg, s, log, w);
    assert BoundedAt(cfg, log, k, n);
    assert n > s.Of(k).number ==> UnusedAt(cfg, log, k, n);
    AppendedLog(log, e, FileName(cfg, k, n));
    FileNamesAreDistinct(cfg, k, n, w.kind, Wrote(cfg, s, w.kind, w.data).Of(w.kind).number);
  }

  lemma OffsetAfter(cfg: Config, s: State, log: seq<Entry>, w: Write, e: Entry, k: Kind)
    requires CursorInv(cfg, s, log, w.kind) && CursorInv(cfg, s, log, k) && Fits(cfg, s, w)
    requires cfg.blockName != cfg.undoName
    requires e == Entry(Info(cfg, s, w.kind, w.data), w.data)
    ensures var c := Wrote(cfg, s, w.kind, w.data).Of(k);
      c.offset == |FileOf(log + [e], FileName(cfg, k, c.number))|
  {
    var s' := Wrote(cfg, s, w.kind, w.data);
    TurnedCursor(cfg, s, log, w);
    AppendedLog(log, e, FileName(cfg, k, s'.Of(k).number));
    FileNamesAreDistinct(cfg, k, s'.Of(k).number, w.kind, s'.Of(w.kind).number);
  }

  lemma CursorAfter(cfg: Config, s: State, log: seq<Entry>, w: Write, e: Entry, k: Kind)
    requires CursorInv(cfg, s, log, w.kind) && CursorInv(cfg, s, log, k) && Fits(cfg, s, w)
    requires cfg.blockName != cfg.undoName
    requires e == Entry(Info(cfg, s, w.kind, w.data), w.data)
    ensures CursorInv(cfg, Wrote(cfg, s, w.kind, w.data), log + [e], k)
  {
    var s' := Wrote(cfg, s, w.kind, w.data);
    forall n: nat
      ensures BoundedAt(cfg, log + [e], k, n)
      ensures n > s'.Of(k).number ==> UnusedAt(cfg, log + [e], k, n)
    {
      FileAfter(cfg, s, log, w, e, k, n);
    }
    OffsetAfter(cfg, s, log, w, e, k);
  }

  lemma DiskAfter(cfg: Config, s: State, log: seq<Entry>, w: Write, e: Entry, name: string)
    requires HeldAt(s.disk, log, name) && e == Entry(Info(cfg, s, w.kind, w.data), w.data)
    ensures HeldAt(Wrote(cfg, s, w.kind, w.data).disk, log + [e], name)
  {
    AppendedLog(log, e, name);
  }

  lemma DisksAfter(cfg: Config, s: State, log: seq<Entry>, w: Write, e: Entry)
    requires Held(s.disk, log) && e == Entry(Info(cfg, s, w.kind, w.data), w.data)
    ensures Held(Wrote(cfg, s, w.kind, w.data).disk, log + [e])
  {
    forall name: string ensures HeldAt(Wrote(cfg, s, w.kind, w.data).disk, log + [e], name) {
      assert HeldAt(s.disk, log, name);
      DiskAfter(cfg, s, log, w, e, name);
    }
  }

  lemma PlacedAfter(log: seq<Entry>, e: Entry, i: nat)
    requires i < |log| && PlacedAt(log, i)
    ensures PlacedAt(log + [e], i)
  {
    assert (log + [e])[..i] == log[..i];
  }

  lemma AllPlacedAfter(log: seq<Entry>, e: Entry)
    requires Placed(log) && PlacedAt(log + [e], |log|)
    ensures Placed(log + [e])
  {
    forall i: nat | i < |log| ensures PlacedAt(log + [e], i) {
      assert PlacedAt(log, i);
      PlacedAfter(log, e, i);
    }
  }

  lemma LastIsPlaced(cfg: Config, s: State, log: seq<Entry>, w: Write, e: Entry)
    requires CursorInv(cfg, s, log, w.kind) && Fits(cfg, s, w) && e == Entry(Info(cfg, s, w.kind, w.data), w.data)
    ensures PlacedAt(log + [e], |log|)
  {
    TurnedCursor(cfg, s, log, w);
    assert (log + [e])[..|log|] == log;
  }

  lemma WriteKeepsInv(cfg: Config, s: State, log: seq<Entry>, w: Write, e: Entry)
    requires Inv(cfg, s, log) && Fits(cfg, s, w) && cfg.blockName != cfg.undoName
    requires e == Entry(Info(cfg, s, w.kind, w.data), w.data)
    ensures Inv(cfg, Wrote(cfg, s, w.kind, w.data), log + [e])
  {
    CursorAfter(cfg, s, log, w, e, BlockKind);
    CursorAfter(cfg, s, log, w, e, UndoKind);
    DisksAfter(cfg, s, log, w, e);
    LastIsPlaced(cfg, s, log, w, e);
    AllPlacedAfter(log, e);
  }

  lemma {:induction false} WritesKeepInv(cfg: Config, writes: seq<Write>)
    requires cfg.blockName != cfg.undoName && AllFit(cfg, writes)
    ensures Inv(cfg, Written(cfg, writes), LogOf(cfg, writes))
  {
    if writes != [] {
      var front, w := writes[..|writes| - 1], writes[|writes| - 1];
      WritesKeepInv(cfg, front);
      WriteKeepsInv(cfg, Written(cfg, front), LogOf(cfg, front), w,
                    Entry(Info(cfg, Written(cfg, front), w.kind, w.data), w.data));
    }
  }

  /** A file keeps each record where it was placed. */
  lemma {:induction false} RecordStays(log: seq<Entry>, i: nat)
    requires i < |log|
    ensures var name := log[i].info.fileName; var start := |FileOf(log[..i], name)|;
      start + |log[i].data| <= |FileOf(log, name)| && FileOf(log, name)[start..start + |log[i].data|] == log[i].data
    ensures RecordsIn(log, log[i].info.fileName) > 0
  {
    var front := log[..|log| - 1];
    if i < |front| {
      RecordStays(front, i);
      assert front[..i] == log[..i];
    }
  }

  lemma {:induction false} LogAt(cfg: Config, writes: seq<Write>, i: nat)
    requires i < |writes|
    ensures LogOf(cfg, writes)[i].data == writes[i].data
    ensures LogOf(cfg, writes)[i].info == Info(cfg, Written(cfg, writes[..i]), writes[i].kind, writes[i].data)
  {
    var front := writes[..|writes| - 1];
    if i < |front| {
      LogAt(cfg, front, i);
      assert front[..i] == writes[..i];
      assert LogOf(cfg, writes)[i] == LogOf(cfg, front)[i];
    } else {
      assert front == writes[..i];
    }
  }

  ghost predicate ReadsBack(cfg: Config, writes: seq<Write>, i: nat)
    requires i < |writes|
  {
    Read(Written(cfg, writes).disk, Info(cfg, Written(cfg, writes[..i]), writes[i].kind, writes[i].data)) ==
        Some(writes[i].data)
  }

  lemma ReadsPlaced(disk: Disk, e: Entry)
    requires e.info.fileName in disk && e.info.startOffset + |e.data| == e.info.endOffset <= |disk[e.info.fileName]|
    requires disk[e.info.fileName][e.info.startOffset..e.info.endOffset] == e.data
    ensures Read(disk, e.info) == Some(e.data)
  {
  }

  lemma PlacedReadsBack(disk: Disk, log: seq<Entry>, i: nat)
    requires i < |log| && PlacedAt(log, i) && HeldAt(disk, log, log[i].info.fileName)
    ensures Read(disk, log[i].info) == Some(log[i].data)
  {
    RecordStays(log, i);
    ReadsPlaced(disk, log[i]);
  }

  /** Every location ever returned still reads back exactly the bytes written there. */
  lemma EveryRecordReadsBack(cfg: Config, writes: seq<Write>, i: nat)
    requires cfg.blockName != cfg.undoName && AllFit(cfg, writes) && i < |writes|
    ensures ReadsBack(cfg, writes, i)
  {
    var s, log := Written(cfg, writes), LogOf(cfg, writes);
    WritesKeepInv(cfg, writes);
    LogAt(cfg, writes, i);
    assert PlacedAt(log, i);
    assert HeldAt(s.disk, log, log[i].info.fileName);
    PlacedReadsBack(s.disk, log, i);
  }

  lemma {:induction false} FileGrows(log: seq<Entry>, i: nat, j: nat, name: string)
    requires i <= j <= |log|
    ensures |FileOf(log[..i], name)| <= |FileOf(log[..j], name)|
    ensures RecordsIn(log[..i], name) <= RecordsIn(log[..j], name)
    ensures RecordsIn(log[..i], name) == RecordsIn(log[..j], name) ==> FileOf(log[..i], name) == FileOf(log[..j], name)
    decreases j - i
  {
    if i < j {
      FileGrows(log, i, j - 1, name);
      assert log[..j][..j - 1] == log[..j - 1];
    }
  }

  /** Records of one file lie one after the other without gaps: a later one starts at or after
      the end of an earlier one, and exactly there when no record of the file comes between. */
  lemma RangesAreContiguous(cfg: Config, writes: seq<Write>, i: nat, j: nat)
    requires cfg.blockName != cfg.undoName && AllFit(cfg, writes) && i < j < |writes|
    requires LogOf(cfg, writes)[i].info.fileName == LogOf(cfg, writes)[j].info.fileName
    ensures var log := LogOf(cfg, writes); var name := log[i].info.fileName;
      && log[i].info.endOffset <= log[j].info.startOffset
      && (RecordsIn(log[..j], name) == RecordsIn(log[..i + 1], name) ==>
          log[i].info.endOffset == log[j].info.startOffset)
  {
    AllPlaced(cfg, writes, i);
    AllPlaced(cfg, writes, j);
    PlacedRanges(LogOf(cfg, writes), i, j);
  }

  lemma AllPlaced(cfg: Config, writes: seq<Write>, i: nat)
    requires cfg.blockName != cfg.undoName && AllFit(cfg, writes) && i < |writes|
    ensures PlacedAt(LogOf(cfg, writes), i)
  {
    WritesKeepInv(cfg, writes);
  }

  lemma PlacedRanges(log: seq<Entry>, i: nat, j: nat)
    requires i < j < |log| && PlacedAt(log, i) && PlacedAt(log, j) && log[i].info.fileName == log[j].info.fileName
    ensures log[i].info.endOffset <= log[j].info.startOffset
    ensures RecordsIn(log[..j], log[i].info.fileName) == RecordsIn(log[..i + 1], log[i].info.fileName) ==>
      log[i].info.endOffset == log[j].info.startOffset
  {
    assert log[..i + 1][..i] == log[..i];
    FileGrows(log, i + 1, j, log[i].info.fileName);
  }

  /** The offset of each cursor is the length of its file, and every file of the log is below
      its limit or holds a single record. */
  lemma OffsetsAndSizes(cfg: Config, writes: seq<Write>, k: Kind, n: nat)
    requires cfg.blockName != cfg.undoName && AllFit(cfg, writes)
    ensures var s := Written(cfg, writes); var file := FileName(cfg, k, n);
      && s.Of(k).offset == |Content(s.disk, FileName(cfg, k, s.Of(k).number))|
      && (|Content(s.disk, file)| < cfg.Limit(k) || RecordsIn(LogOf(cfg, writes), file) <= 1)
      && (n > s.Of(k).number ==> file !in s.disk)
  {
    var s, log := Written(cfg, writes), LogOf(cfg, writes);
    WritesKeepInv(cfg, writes);
    assert HeldAt(s.disk, log, FileName(cfg, k, s.Of(k).number)) && HeldAt(s.disk, log, FileName(cfg, k, n));
    assert BoundedAt(cfg, log, k, n);
    if n > s.Of(k).number { assert UnusedAt(cfg, log, k, n); }
  }

  /** A record goes into the current file exactly when the file stays below its limit with it, and
      otherwise to the start of the next one. */
  lemma RotatesExactly(cfg: Config, s: State, w: Write, c: Cursor)
    requires Fits(cfg, s, w) && c == s.Of(w.kind)
    ensures Info(cfg, s, w.kind, w.data) ==
      if c.offset + |w.data| < cfg.Limit(w.kind)
      then FileInfo(FileName(cfg, w.kind, c.number), c.offset, c.offset + |w.data|)
      else FileInfo(FileName(cfg, w.kind, c.number + 1), 0, |w.data|)
  {
    TurnedFits(c, |w.data|, cfg.Limit(w.kind));
  }

  // ---- Shared base names ----

  lemma WrittenAppended(cfg: Config, front: seq<Write>, w: Write)
    ensures Written(cfg, front + [w]) == Wrote(cfg, Written(cfg, front), w.kind, w.data)
    ensures AllFit(cfg, front + [w]) <==> AllFit(cfg, front) && Fits(cfg, Written(cfg, front), w)
  {
    assert (front + [w])[..|front|] == front;
  }

  lemma OverlapRead(disk: Disk, name: string, offset: uint32, data: seq<byte>)
    requires data != [] && offset + |data| < U32_LIMIT
    requires offset < |Content(disk, name)| && Content(disk, name)[offset] != data[0]
    ensures Read(Appended(disk, name, data), FileInfo(name, offset, offset + |data|)) != Some(data)
  {
    var read := Read(Appended(disk, name, data), FileInfo(name, offset, offset + |data|));
    if read.Some? { assert read.value[0] != data[0]; }
  }

  lemma OverlappingWrite(cfg: Config, s: State, w: Write)
    requires Fits(cfg, s, w) && w.data != []
    requires var c := Turned(s.Of(w.kind), |w.data|, cfg.Limit(w.kind));
      var content := Content(s.disk, FileName(cfg, w.kind, c.number));
      c.offset < |content| && content[c.offset] != w.data[0]
    ensures Read(Wrote(cfg, s, w.kind, w.data).disk, Info(cfg, s, w.kind, w.data)) != Some(w.data)
  {
    var c := Turned(s.Of(w.kind), |w.data|, cfg.Limit(w.kind));
    TurnedFits(s.Of(w.kind), |w.data|, cfg.Limit(w.kind));
    OverlapRead(s.disk, FileName(cfg, w.kind, c.number), c.offset, w.data);
  }

  lemma WrittenNext(cfg: Config, writes: seq<Write>, n: nat)
    requires n < |writes|
    ensures Written(cfg, writes[..n + 1]) == Wrote(cfg, Written(cfg, writes[..n]), writes[n].kind, writes[n].data)
  {
    assert writes[..n + 1][..n] == writes[..n];
  }

  /** A record written below the end of its file is not what its location reads back. */
  lemma OverlapIsMisread(cfg: Config, front: seq<Write>, w: Write, c: Cursor)
    requires Fits(cfg, Written(cfg, front), w) && w.data != []
    requires c == Turned(Written(cfg, front).Of(w.kind), |w.data|, cfg.Limit(w.kind))
    requires var content := Content(Written(cfg, front).disk, FileName(cfg, w.kind, c.number));
      c.offset < |content| && content[c.offset] != w.data[0]
    ensures !ReadsBack(cfg, front + [w], |front|)
  {
    OverlappingWrite(cfg, Written(cfg, front), w);
    WrittenAppended(cfg, front, w);
    assert (front + [w])[..|front|] == front;
  }

  function Other(k: Kind): Kind { if k.BlockKind? then UndoKind else BlockKind }

  function FirstFile(cfg: Config, k: Kind): nat { if 1 >= cfg.Limit(k) then 1 else 0 }

  /** Writes after which, with shared base names, the last record is misread. */
  function Clash(cfg: Config, k: Kind): seq<Write>
    requires FirstFile(cfg, k) <= FirstFile(cfg, Other(k))
  {
    if FirstFile(cfg, k) == FirstFile(cfg, Other(k)) then [Write(k, [1]), Write(Other(k), [2])]
    else [Write(k, [1]), Write(Other(k), [2]), Write(k, seq(cfg.Limit(k) - 1, _ => 1))]
  }

  /** The state after a first write of one byte. */
  lemma FirstWrite(cfg: Config, k: Kind)
    ensures var ws := [Write(k, [1])]; var s, f := Written(cfg, ws), FirstFile(cfg, k);
      && AllFit(cfg, ws) && s.Of(k) == Cursor(f, 1) && s.Of(Other(k)) == Cursor(0, 0)
      && s.disk == Appended(map[], FileName(cfg, k, f), [1])
  {
    var w := Write(k, [1]);
    WrittenAppended(cfg, [], w);
    assert [] + [w] == [w];
    TurnedFits(Cursor(0, 0), 1, cfg.Limit(k));
  }

  lemma SecondWrite(cfg: Config, k: Kind)
    ensures var ws := [Write(k, [1]), Write(Other(k), [2])];
      var s, f, g := Written(cfg, ws), FirstFile(cfg, k), FirstFile(cfg, Other(k));
      && AllFit(cfg, ws) && s.Of(k) == Cursor(f, 1)
      && s.disk == Appended(Appended(map[], FileName(cfg, k, f), [1]), FileName(cfg, Other(k), g), [2])
  {
    var one, w := [Write(k, [1])], Write(Other(k), [2]);
    FirstWrite(cfg, k);
    WrittenAppended(cfg, one, w);
    assert one + [w] == [Write(k, [1]), w];
    TurnedFits(Cursor(0, 0), 1, cfg.Limit(Other(k)));
  }

  lemma SameFileClash(cfg: Config, k: Kind)
    requires cfg.blockName == cfg.undoName && FirstFile(cfg, k) == FirstFile(cfg, Other(k))
    ensures !ReadsBack(cfg, Clash(cfg, k), 1)
  {
    var one, w := [Write(k, [1])], Write(Other(k), [2]);
    FirstWrite(cfg, k);
    FileNamesAreDistinct(cfg, k, FirstFile(cfg, k), Other(k), FirstFile(cfg, k));
    TurnedFits(Cursor(0, 0), 1, cfg.Limit(Other(k)));
    OverlapIsMisread(cfg, one, w, Cursor(FirstFile(cfg, k), 0));
    assert one + [w] == Clash(cfg, k);
  }

  lemma NextFileClash(cfg: Config, k: Kind)
    requires cfg.blockName == cfg.undoName && FirstFile(cfg, k) < FirstFile(cfg, Other(k))
    ensures AllFit(cfg, Clash(cfg, k)) && !ReadsBack(cfg, Clash(cfg, k), 2)
  {
    var two, long := [Write(k, [1]), Write(Other(k), [2])], Write(k, seq(cfg.Limit(k) - 1, _ => 1));
    assert two + [long] == Clash(cfg, k);
    SecondWrite(cfg, k);
    NextFileIsTaken(cfg, k);
    NextFileOverlaps(cfg, two, long);
  }

  lemma NextFileOverlaps(cfg: Config, front: seq<Write>, w: Write)
    requires AllFit(cfg, front) && Written(cfg, front).Of(w.kind) == Cursor(0, 1)
    requires |w.data| == cfg.Limit(w.kind) - 1 > 0 && w.data[0] == 1
    requires Content(Written(cfg, front).disk, FileName(cfg, w.kind, 1)) == [2]
    ensures AllFit(cfg, front + [w]) && !ReadsBack(cfg, front + [w], |front|)
  {
    WrittenAppended(cfg, front, w);
    TurnedFits(Cursor(0, 1), |w.data|, cfg.Limit(w.kind));
    OverlapIsMisread(cfg, front, w, Cursor(1, 0));
  }

  lemma NextFileIsTaken(cfg: Config, k: Kind)
    requires cfg.blockName == cfg.undoName && FirstFile(cfg, k) == 0 && FirstFile(cfg, Other(k)) == 1
    ensures Content(Written(cfg, [Write(k, [1]), Write(Other(k), [2])]).disk, FileName(cfg, k, 1)) == [2]
  {
    SecondWrite(cfg, k);
    FileNamesAreDistinct(cfg, k, 1, Other(k), 1);
    FileNamesAreDistinct(cfg, k, 0, Other(k), 1);
  }

  lemma ClashIsMisread(cfg: Config, k: Kind)
    requires cfg.blockName == cfg.undoName && FirstFile(cfg, k) <= FirstFile(cfg, Other(k))
    ensures var ws := Clash(cfg, k); AllFit(cfg, ws) && !ReadsBack(cfg, ws, |ws| - 1)
  {
    if FirstFile(cfg, k) == FirstFile(cfg, Other(k)) {
      SameFileClash(cfg, k);
      SecondWrite(cfg, k);
    } else {
      NextFileClash(cfg, k);
    }
  }

  /** Every location returned in every run of writes reads back its bytes if and only if blocks
      and undo blocks have different base names. */
  lemma RoundTripExactly(cfg: Config)
    ensures cfg.blockName != cfg.undoName <==>
      forall writes: seq<Write>, i: nat :: AllFit(cfg, writes) && i < |writes| ==> ReadsBack(cfg, writes, i)
  {
    if cfg.blockName != cfg.undoName {
      forall writes: seq<Write>, i: nat | AllFit(cfg, writes) && i < |writes| ensures ReadsBack(cfg, writes, i) {
        EveryRecordReadsBack(cfg, writes, i);
      }
    } else {
      var k := if FirstFile(cfg, BlockKind) <= FirstFile(cfg, UndoKind) then BlockKind else UndoKind;
      ClashIsMisread(cfg, k);
    }
  }

  // ---- Stored blocks ----

  /** A serialized block and, if it spends anything, its serialized undo block. */
  datatype Store = Store(block: seq<byte>, undo: Option<seq<byte>>)

  const NO_FILE := FileInfo("", 0, 0)

  function WritesOf(st: Store): seq<Write> {
    [Write(BlockKind, st.block)] + if st.undo.Some? then [Write(UndoKind, st.undo.value)] else []
  }

  function Writes(stores: seq<Store>): seq<Write> {
    if stores == [] then [] else Writes(stores[..|stores| - 1]) + WritesOf(stores[|stores| - 1])
  }

  function AfterStore(cfg: Config, s: State, st: Store): State {
    var s' := Wrote(cfg, s, BlockKind, st.block);
    if st.undo.Some? then Wrote(cfg, s', UndoKind, st.undo.value) else s'
  }

  function BlockInfo(cfg: Config, s: State, st: Store): FileInfo {
    Info(cfg, s, BlockKind, st.block)
  }

  function UndoInfo(cfg: Config, s: State, st: Store): FileInfo {
    if st.undo.Some? then Info(cfg, Wrote(cfg, s, BlockKind, st.block), UndoKind, st.undo.value) else NO_FILE
  }

  lemma StoreIsWrites(cfg: Config, front: seq<Write>, st: Store)
    ensures Written(cfg, front + WritesOf(st)) == AfterStore(cfg, Written(cfg, front), st)
  {
    var w := Write(BlockKind, st.block);
    WrittenAppended(cfg, front, w);
    if st.undo.Some? {
      WrittenAppended(cfg, front + [w], Write(UndoKind, st.undo.value));
      assert front + WritesOf(st) == front + [w] + [Write(UndoKind, st.undo.value)];
    } else {
      assert front + WritesOf(st) == front + [w];
    }
  }

  /** The state after storing the blocks one after the other. */
  function Stored(cfg: Config, stores: seq<Store>): State {
    if stores == [] then FRESH else AfterStore(cfg, Stored(cfg, stores[..|stores| - 1]), stores[|stores| - 1])
  }

  lemma {:induction false} StoredIsWritten(cfg: Config, stores: seq<Store>)
    ensures Stored(cfg, stores) == Written(cfg, Writes(stores))
  {
    if stores != [] {
      StoredIsWritten(cfg, stores[..|stores| - 1]);
      StoreIsWrites(cfg, Writes(stores[..|stores| - 1]), stores[|stores| - 1]);
    }
  }

  lemma {:induction false} WritesPrefix(stores: seq<Store>, i: nat)
    requires i < |stores|
    ensures var n := |Writes(stores[..i])|; var all, st := Writes(stores), stores[i];
      && n < |all| && all[..n] == Writes(stores[..i]) && all[n] == Write(BlockKind, st.block)
      && (st.undo.Some? ==> n + 1 < |all| && all[n + 1] == Write(UndoKind, st.undo.value))
  {
    var front := stores[..|stores| - 1];
    if i < |front| {
      WritesPrefix(front, i);
      assert front[..i] == stores[..i];
    }
  }

  lemma {:induction false} NoEmptyName(cfg: Config, writes: seq<Write>)
    ensures RecordsIn(LogOf(cfg, writes), "") == 0
  {
    if writes != [] { NoEmptyName(cfg, writes[..|writes| - 1]); }
  }

  /** The writes of a run with the two of one stored block picked out. */
  lemma WritesAt(cfg: Config, stores: seq<Store>, i: nat)
    requires i < |stores|
    ensures var n := |Writes(stores[..i])|; var all, st := Writes(stores), stores[i];
      && n < |all| && all[n] == Write(BlockKind, st.block) && Written(cfg, all[..n]) == Stored(cfg, stores[..i])
      && (st.undo.Some? ==> n + 1 < |all| && all[n + 1] == Write(UndoKind, st.undo.value)
                            && Written(cfg, all[..n + 1]) == Wrote(cfg, Stored(cfg, stores[..i]), BlockKind, st.block))
  {
    var all, n := Writes(stores), |Writes(stores[..i])|;
    StoredIsWritten(cfg, stores[..i]);
    WritesPrefix(stores, i);
    WrittenNext(cfg, all, n);
  }

  lemma NoFileUnreadable(cfg: Config, writes: seq<Write>)
    requires cfg.blockName != cfg.undoName && AllFit(cfg, writes)
    ensures Read(Written(cfg, writes).disk, NO_FILE) == None
  {
    WritesKeepInv(cfg, writes);
    NoEmptyName(cfg, writes);
    assert HeldAt(Written(cfg, writes).disk, LogOf(cfg, writes), "");
  }

  /** For every run of stored blocks, the location recorded for a block reads back the block, and
      the location recorded for its undo block reads back the undo block or, when none was
      written, cannot be read at all. */
  lemma StoredBlocksReadBack(cfg: Config, stores: seq<Store>, i: nat)
    requires cfg.blockName != cfg.undoName && AllFit(cfg, Writes(stores)) && i < |stores|
    ensures Read(Stored(cfg, stores).disk, BlockInfo(cfg, Stored(cfg, stores[..i]), stores[i])) == Some(stores[i].block)
    ensures Read(Stored(cfg, stores).disk, UndoInfo(cfg, Stored(cfg, stores[..i]), stores[i])) == stores[i].undo
  {
    var all, n := Writes(stores), |Writes(stores[..i])|;
    StoredIsWritten(cfg, stores);
    WritesAt(cfg, stores, i);
    EveryRecordReadsBack(cfg, all, n);
    if stores[i].undo.Some? {
      EveryRecordReadsBack(cfg, all, n + 1);
    } else {
      NoFileUnreadable(cfg, all);
    }
  }
}
