/** The append-only block and undo files of the chain: names, rotation, offsets and the location
    recorded for every write. The disk is a map from file names to bytes. */
module ChainFiles {
  import opened Ledger

  type byte = x: int | 0 <= x < 256

  type Disk = map<string, seq<byte>>

  datatype FileInfo = FileInfo(fileName: string, startOffset: uint32, endOffset: uint32)

  datatype Kind = BlockKind | UndoKind

  datatype Config =
    Config(extension: string, directory: string, blockName: string, undoName: string,
           maxBlockSize: uint32, maxUndoSize: uint32)
  {
    function Base(k: Kind): string { if k.BlockKind? then blockName else undoName }
    function Limit(k: Kind): uint32 { if k.BlockKind? then maxBlockSize else maxUndoSize }
  }

  /** Where the next record of a kind goes. */
  datatype Cursor = Cursor(number: uint32, offset: uint32)

  datatype State = State(block: Cursor, undo: Cursor, disk: Disk)
  {
    function Of(k: Kind): Cursor { if k.BlockKind? then block else undo }

    function Moved(k: Kind, c: Cursor, d: Disk): State {
      if k.BlockKind? then State(c, undo, d) else State(block, c, d)
    }
  }

  const FRESH := State(Cursor(0, 0), Cursor(0, 0), map[])

  function Digit(d: nat): char
    requires d < 10
  {
    "0123456789"[d]
  }

  /** Decimal notation. */
  function Itoa(n: nat): string {
    if n < 10 then [Digit(n)] else Itoa(n / 10) + [Digit(n % 10)]
  }

  function FileName(cfg: Config, k: Kind, n: nat): string {
    cfg.directory + "/" + cfg.Base(k) + "_" + Itoa(n) + cfg.extension
  }

  function Content(disk: Disk, name: string): seq<byte> {
    if name in disk then disk[name] else []
  }

  function Appended(disk: Disk, name: string, data: seq<byte>): Disk {
    disk[name := Content(disk, name) + data]
  }

  /** The bytes at a location; `None` where the source panics. */
  function Read(disk: Disk, fi: FileInfo): Option<seq<byte>> {
    var n := Wrap(fi.endOffset - fi.startOffset);
    if fi.fileName !in disk then None
    else if n == 0 then Some([])
    else if fi.startOffset + n <= |disk[fi.fileName]| then Some(disk[fi.fileName][fi.startOffset..fi.startOffset + n])
    else None
  }

  /** The cursor a record is written at, after rotating to the next file if the current one
      would reach its limit. */
  function Turned(c: Cursor, length: uint32, limit: uint32): Cursor {
    if Wrap(c.offset + length) >= limit then Cursor(Wrap(c.number + 1), 0) else c
  }

  function InfoOf(cfg: Config, k: Kind, c: Cursor, length: uint32): FileInfo {
    FileInfo(FileName(cfg, k, c.number), c.offset, Wrap(c.offset + length))
  }

  function Info(cfg: Config, s: State, k: Kind, data: seq<byte>): FileInfo {
    InfoOf(cfg, k, Turned(s.Of(k), Wrap(|data|), cfg.Limit(k)), Wrap(|data|))
  }

  function Wrote(cfg: Config, s: State, k: Kind, data: seq<byte>): State {
    var c := Turned(s.Of(k), Wrap(|data|), cfg.Limit(k));
    s.Moved(k, Cursor(c.number, Wrap(c.offset + Wrap(|data|))), Appended(s.disk, FileName(cfg, k, c.number), data))
  }

  /** A location can be read exactly when its file exists and, unless it is empty, ends inside it. */
  lemma ReadExactly(disk: Disk, fi: FileInfo)
    requires fi.startOffset <= fi.endOffset
    ensures Read(disk, fi).Some? <==>
      fi.fileName in disk && (fi.startOffset == fi.endOffset || fi.endOffset <= |disk[fi.fileName]|)
    ensures Read(disk, fi).Some? && fi.endOffset <= |disk[fi.fileName]| ==>
      Read(disk, fi).value == disk[fi.fileName][fi.startOffset..fi.endOffset]
  {
    WrapFits(fi.endOffset - fi.startOffset);
  }

  // ---- File names ----

  lemma {:induction false} ItoaDigits(n: nat)
    ensures |Itoa(n)| > 0 && '_' !in Itoa(n)
  {
    if n >= 10 { ItoaDigits(n / 10); }
  }

  lemma {:induction false} ItoaInjective(m: nat, n: nat)
    requires Itoa(m) == Itoa(n)
    ensures m == n
  {
    var s := Itoa(m);
    ItoaDigits(m / 10);
    ItoaDigits(n / 10);
    if m >= 10 && n >= 10 {
      assert s[..|s| - 1] == Itoa(m / 10) == Itoa(n / 10);
      ItoaInjective(m / 10, n / 10);
      assert s[|s| - 1] == Digit(m % 10) == Digit(n % 10);
    }
  }

  predicate AllDigits(s: string) {
    forall i :: 0 <= i < |s| ==> '0' <= s[i] <= '9'
  }

  /** What decimal digits stand for. */
  function ValueOf(s: string): nat
    requires AllDigits(s)
  {
    if s == [] then 0 else 10 * ValueOf(s[..|s| - 1]) + (s[|s| - 1] as int - '0' as int)
  }

  lemma DigitStandsFor(d: nat)
    requires d < 10
    ensures '0' <= Digit(d) <= '9' && Digit(d) as int - '0' as int == d
  {
  }

  /** A number is written in the decimal digits that stand for it. */
  lemma {:induction false} ItoaStandsFor(n: nat)
    ensures AllDigits(Itoa(n)) && ValueOf(Itoa(n)) == n
  {
    DigitStandsFor(n % 10);
    if n >= 10 {
      ItoaStandsFor(n / 10);
      assert Itoa(n)[..|Itoa(n)| - 1] == Itoa(n / 10);
    } else {
      assert [Digit(n)][..0] == [];
    }
  }

  lemma UnderscoreTells(a: string, s: string, b: string, t: string)
    requires |a| < |b| && '_' !in s
    ensures a + "_" + s != b + "_" + t
  {
    var v, w := a + "_" + s, b + "_" + t;
    assert w[|b|] == '_';
    if |v| == |w| { assert v[|b|] == s[|b| - |a| - 1]; }
  }

  /** Numbered names that agree have the same base: a number contains no underscore. */
  lemma NumberedNames(a: string, b: string, s: string, t: string)
    requires a + "_" + s == b + "_" + t && '_' !in s && '_' !in t
    ensures a == b && s == t
  {
    if |a| < |b| {
      UnderscoreTells(a, s, b, t);
    } else if |b| < |a| {
      UnderscoreTells(b, t, a, s);
    } else {
      var w := a + "_" + s;
      assert a == w[..|a|] && b == w[..|b|];
      assert s == w[|a| + 1..] && t == w[|b| + 1..];
    }
  }

  lemma FramedNames(p: string, a: string, b: string, e: string)
    requires p + a + e == p + b + e
    ensures a == b
  {
    var w := p + a + e;
    assert |a| == |b|;
    assert a == w[|p|..|p| + |a|] && b == w[|p|..|p| + |b|];
  }

  /** Two records are in the same file exactly if they share a base name and a number. */
  lemma FileNamesAreDistinct(cfg: Config, k: Kind, n: nat, k': Kind, n': nat)
    ensures FileName(cfg, k, n) == FileName(cfg, k', n') <==> cfg.Base(k) == cfg.Base(k') && n == n'
  {
    if FileName(cfg, k, n) == FileName(cfg, k', n') {
      var p, a, b := cfg.directory + "/", cfg.Base(k) + "_" + Itoa(n), cfg.Base(k') + "_" + Itoa(n');
      assert FileName(cfg, k, n) == p + a + cfg.extension && FileName(cfg, k', n') == p + b + cfg.extension;
      FramedNames(p, a, b, cfg.extension);
      ItoaDigits(n);
      ItoaDigits(n');
      NumberedNames(cfg.Base(k), cfg.Base(k'), Itoa(n), Itoa(n'));
      ItoaInjective(n, n');
    }
  }
}
