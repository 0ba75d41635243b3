/** The writer of block and undo files, as the node runs it. */
module ChainWriter {
  import opened Ledger
  import opened ChainFiles
  import opened ChainLog

  datatype BlockRecord =
    BlockRecord(header: Header, height: uint32, numberOfTransactions: uint32, blockInfo: FileInfo, undoInfo: FileInfo)

  class ChainWriter {
    const config: Config
    var currentBlockFileNumber: uint32
    var currentBlockOffset: uint32
    var currentUndoFileNumber: uint32
    var currentUndoOffset: uint32
    var disk: Disk

    function View(): State
      reads this
    {
      State(Cursor(currentBlockFileNumber, currentBlockOffset), Cursor(currentUndoFileNumber, currentUndoOffset), disk)
    }

    /** The data directory is newly made, so it has no files. */
    constructor (config: Config)
      ensures this.config == config && View() == FRESH
    {
      this.config := config;
      currentBlockFileNumber, currentBlockOffset := 0, 0;
      currentUndoFileNumber, currentUndoOffset := 0, 0;
      disk := map[];
    }

    method WriteToDisk(fileName: string, data: seq<byte>)
      modifies this`disk
      ensures disk == Appended(old(disk), fileName, data)
    {
      if fileName !in disk {
        disk := disk[fileName := []];
      }
      disk := disk[fileName := disk[fileName] + data];
    }

    method ReadFromDisk(info: FileInfo) returns (buf: Option<seq<byte>>)
      ensures buf == Read(disk, info)
    {
      if info.fileName !in disk {
        return None;
      }
      var file := disk[info.fileName];
      var numBytes := Wrap(info.endOffset - info.startOffset);
      if numBytes != 0 && |file| < info.startOffset + numBytes {
        return None;
      }
      return Some(if numBytes == 0 then [] else file[info.startOffset..info.startOffset + numBytes]);
    }

    method WriteBlock(serializedBlock: seq<byte>) returns (fi: FileInfo)
      modifies this
      ensures View() == Wrote(config, old(View()), BlockKind, serializedBlock)
      ensures fi == Info(config, old(View()), BlockKind, serializedBlock)
    {
      var length := Wrap(|serializedBlock|);
      if Wrap(currentBlockOffset + length) >= config.maxBlockSize {
        currentBlockOffset := 0;
        currentBlockFileNumber := Wrap(currentBlockFileNumber + 1);
      }
      assert Cursor(currentBlockFileNumber, currentBlockOffset) ==
        Turned(old(View().Of(BlockKind)), length, config.maxBlockSize);
      var fileName := FileName(config, BlockKind, currentBlockFileNumber);
      WriteToDisk(fileName, serializedBlock);
      fi := FileInfo(fileName, currentBlockOffset, Wrap(currentBlockOffset + length));
      currentBlockOffset := Wrap(currentBlockOffset + length);
    }

    method WriteUndoBlock(serializedUndoBlock: seq<byte>) returns (fi: FileInfo)
      modifies this
      ensures View() == Wrote(config, old(View()), UndoKind, serializedUndoBlock)
      ensures fi == Info(config, old(View()), UndoKind, serializedUndoBlock)
    {
      var length := Wrap(|serializedUndoBlock|);
      if Wrap(currentUndoOffset + length) >= config.maxUndoSize {
        currentUndoOffset := 0;
        currentUndoFileNumber := Wrap(currentUndoFileNumber + 1);
      }
      assert Cursor(currentUndoFileNumber, currentUndoOffset) ==
        Turned(old(View().Of(UndoKind)), length, config.maxUndoSize);
      var fileName := FileName(config, UndoKind, currentUndoFileNumber);
      WriteToDisk(fileName, serializedUndoBlock);
      fi := FileInfo(fileName, currentUndoOffset, Wrap(currentUndoOffset + length));
      currentUndoOffset := Wrap(currentUndoOffset + length);
    }

    /** `st` holds the serialized forms; its undo part is absent when the undo block has no amounts. */
    method StoreBlock(bl: Block, st: Store, height: uint32) returns (record: BlockRecord)
      modifies this
      ensures View() == AfterStore(config, old(View()), st)
      ensures record.blockInfo == BlockInfo(config, old(View()), st)
      ensures record.undoInfo == UndoInfo(config, old(View()), st)
      ensures record.header == bl.header && record.height == height
      ensures record.numberOfTransactions == Wrap(|bl.transactions|)
    {
      var bfi := WriteBlock(st.block);
      var ufi := NO_FILE;
      if st.undo.Some? {
        ufi := WriteUndoBlock(st.undo.value);
      }
      record := BlockRecord(bl.header, height, Wrap(|bl.transactions|), bfi, ufi);
    }
  }
}
