// tfs_write: bytes go into the flat buffer at block * block_size + offset. Other
// files keep their bytes because no two files own the same block. A write behind
// the end of its file, which only a handle left there by a truncation can make,
// brings up whatever the block held in the gap.
module FsWriting {
  import opened Prelude
  import opened Bytes
  import opened FsModel
  import opened FsAbstract
  import opened FsInvariant
  import opened FsDirectory
  import opened FsBlocks
  import opened FsConservation
  import opened FsRefinement
  import opened FsOpening

  // The tables after n = |buf| bytes were copied into block b for handle h.
  function Written(s: Fs, h: int, i: nat, b: nat, buf: seq<byte>): (t: Fs)
    requires IsOpen(s, h) && |s.open| == |s.openTaken| && i < |s.inodes| && b < |s.blockTaken|
    requires b * s.params.blockSize + s.open[h].offset + |buf| <= |s.data|
    ensures |t.inodes| == |s.inodes|
  {
    var end := s.open[h].offset + |buf|;
    s.(
    inodes := s.inodes[i := s.inodes[i].(block := b, size := Max(s.inodes[i].size, end))],
    blockTaken := s.blockTaken[b := true],
    data := Splice(s.data, b * s.params.blockSize + s.open[h].offset, buf),
    open := s.open[h := s.open[h].(offset := end)])
  }

  lemma BlocksApart(bs: nat, b: nat, c: nat)
    requires b < c
    ensures b * bs + bs <= c * bs
  {
    assert (b + 1) * bs <= c * bs;
  }

  // A copy outside [p, p + size) leaves those bytes alone.
  lemma SpliceElsewhere(data: seq<byte>, pos: nat, buf: seq<byte>, p: nat, size: nat)
    requires pos + |buf| <= |data| && p + size <= |data|
    requires pos + |buf| <= p || p + size <= pos
    ensures Splice(data, pos, buf)[p..p + size] == data[p..p + size]
  {
  }

  // In its own block the copy replaces exactly the bytes [off, off + |buf|).
  lemma OwnBytesOverwritten(data: seq<byte>, p: nat, size: nat, off: nat, buf: seq<byte>)
    requires off <= size && p + Max(size, off + |buf|) <= |data|
    ensures Splice(data, p + off, buf)[p..p + Max(size, off + |buf|)] == Overwrite(data[p..p + size], off, buf)
  {
  }

  // Behind the end of the file, the block's old bytes fill the gap.
  lemma GapKept(data: seq<byte>, p: nat, size: nat, off: nat, buf: seq<byte>)
    requires size < off && p + off + |buf| <= |data|
    ensures Splice(data, p + off, buf)[p..p + off + |buf|] == data[p..p + size] + data[p + size..p + off] + buf
  {
  }

  // A copy that stays inside block b changes no file in another block.
  lemma OtherFileKept(s: Fs, h: int, i: nat, b: nat, buf: seq<byte>, j: nat)
    requires Inv(s) && IsOpen(s, h) && i < |s.inodes| && b < |s.blockTaken|
    requires s.open[h].offset + |buf| <= s.params.blockSize
    requires b * s.params.blockSize + s.open[h].offset + |buf| <= |s.data|
    requires Live(s.inodeTaken, j) && j != i && (s.inodes[j].size > 0 ==> s.inodes[j].block != b)
    ensures Content(s.inodes[j], Written(s, h, i, b, buf).data, s.params.blockSize) ==
            Content(s.inodes[j], s.data, s.params.blockSize)
  {
    hide DirInv, TreeInv, HandleRange;
    var f, bs := s.inodes[j], s.params.blockSize;
    if f.size > 0 {
      assert Owns(s.inodes, s.inodeTaken, j, f.block);
      BlockFits(s, f.block);
      if b < f.block {
        BlocksApart(bs, b, f.block);
      } else {
        BlocksApart(bs, f.block, b);
      }
      SpliceElsewhere(s.data, b * bs + s.open[h].offset, buf, f.block * bs, f.size);
    }
  }

  // Block b is where tfs_write puts the bytes of a handle on live file i: the
  // file's own block or, for an empty file, the lowest FREE block.
  ghost predicate Target(s: Fs, h: int, i: int, b: int) {
    && IsOpen(s, h) && |s.open| == |s.openTaken| && i == s.open[h].inumber
    && LiveFile(s.inodeTaken, i) && 0 <= i < |s.inodes| && 0 <= b < |s.blockTaken|
    && if s.inodes[i].size == 0 then b == FirstFree(s.blockTaken) else b == s.inodes[i].block && s.blockTaken[b]
  }

  // There is a block to put bytes in: the inode's own or a FREE one.
  ghost predicate WriteHasBlock(s: Fs, h: int)
    requires Inv(s) && IsOpen(s, h)
  {
    assert Live(s.openTaken, h);
    s.inodes[s.open[h].inumber].size > 0 || FirstFree(s.blockTaken) < |s.blockTaken|
  }

  lemma WriteTarget(s: Fs, h: int, buf: seq<byte>) returns (i: nat, b: nat)
    requires Inv(s) && IsOpen(s, h) && buf != [] && LiveFile(s.inodeTaken, s.open[h].inumber)
    requires s.open[h].offset + |buf| <= s.params.blockSize
    requires WriteHasBlock(s, h)
    ensures Target(s, h, i, b) && i == s.open[h].inumber && b * s.params.blockSize + s.params.blockSize <= |s.data|
    ensures TfsWrite(s, h, buf) == Done((Written(s, h, i, b, buf), |buf|))
  {
    assert Live(s.openTaken, h);
    i := s.open[h].inumber;
    if s.inodes[i].size > 0 {
      assert Owns(s.inodes, s.inodeTaken, i, s.inodes[i].block);
      b := s.inodes[i].block;
      assert s.blockTaken[b := true] == s.blockTaken;
    } else {
      b := FirstFree(s.blockTaken);
    }
    BlockFits(s, b);
  }

  lemma WriteInv(s: Fs, h: int, i: nat, b: nat, buf: seq<byte>)
    requires Inv(s) && Target(s, h, i, b) && buf != []
    requires s.open[h].offset + |buf| <= s.params.blockSize
    requires b * s.params.blockSize + s.params.blockSize <= |s.data|
    ensures Inv(Written(s, h, i, b, buf))
  {
    hide DirInv, BlockInv;
    InvParts(s);
    var t := Written(s, h, i, b, buf);
    SizeFits(s, h, i, b, buf);
    BytesAdded(s.inodes, s.inodeTaken, s.blockTaken, s.params.blockSize, i, b, t.inodes[i].size);
    forall g | Live(t.openTaken, g)
      ensures 0 <= t.open[g].inumber < |t.inodes| && t.open[g].offset <= t.params.blockSize
    {
      assert Live(s.openTaken, g);
    }
  }

  lemma SizeFits(s: Fs, h: int, i: nat, b: nat, buf: seq<byte>)
    requires Inv(s) && Target(s, h, i, b) && buf != []
    requires s.open[h].offset + |buf| <= s.params.blockSize
    requires b * s.params.blockSize + s.params.blockSize <= |s.data|
    ensures 0 < Written(s, h, i, b, buf).inodes[i].size <= s.params.blockSize
  {
  }

  // The bytes of block b between the end of the file and the handle.
  ghost function Gap(s: Fs, h: int, i: nat, b: nat): seq<byte>
    requires IsOpen(s, h) && |s.open| == |s.openTaken| && i < |s.inodes|
  {
    var p, size, at := b * s.params.blockSize, s.inodes[i].size, s.open[h].offset;
    if size <= at && p + at <= |s.data| then s.data[p + size..p + at] else []
  }

  lemma GapLength(s: Fs, h: int, i: nat, b: nat)
    requires IsOpen(s, h) && |s.open| == |s.openTaken| && i < |s.inodes|
    requires s.inodes[i].size <= s.open[h].offset <= s.params.blockSize
    requires b * s.params.blockSize + s.params.blockSize <= |s.data|
    ensures |Gap(s, h, i, b)| == s.open[h].offset - s.inodes[i].size
  {
  }

  // What the file holds before and after the copy, as cuts from block b.
  lemma OldContent(s: Fs, h: int, i: nat, b: nat)
    requires Inv(s) && Target(s, h, i, b) && b * s.params.blockSize + s.params.blockSize <= |s.data|
    ensures var p, size := b * s.params.blockSize, s.inodes[i].size;
            0 <= p <= p + size <= |s.data| && Content(s.inodes[i], s.data, s.params.blockSize) == s.data[p..p + size]
  {
    hide Shaped, FirstFree, DirInv, TreeInv;
    MulMono(0, b, s.params.blockSize);
  }

  lemma NewContent(s: Fs, h: int, i: nat, b: nat, buf: seq<byte>)
    requires IsOpen(s, h) && |s.open| == |s.openTaken| && i < |s.inodes| && b < |s.blockTaken| && buf != []
    requires s.open[h].offset + |buf| <= s.params.blockSize && s.inodes[i].size <= s.params.blockSize
    requires b * s.params.blockSize + s.params.blockSize <= |s.data|
    ensures var p, at, t := b * s.params.blockSize, s.open[h].offset, Written(s, h, i, b, buf);
            var end := Max(s.inodes[i].size, at + |buf|);
            && 0 <= p <= p + at && p + at + |buf| <= |s.data| && p + end <= |s.data|
            && Content(t.inodes[i], t.data, s.params.blockSize) == Splice(s.data, p + at, buf)[p..p + end]
  {
    MulMono(0, b, s.params.blockSize);
  }

  // The written file has the new bytes at the offset, and its other bytes; behind
  // its end the gap is filled with what the block held there.
  lemma OwnContent(s: Fs, h: int, i: nat, b: nat, buf: seq<byte>)
    requires Inv(s) && Target(s, h, i, b) && buf != []
    requires s.open[h].offset + |buf| <= s.params.blockSize
    requires b * s.params.blockSize + s.params.blockSize <= |s.data|
    ensures var c := Content(s.inodes[i], s.data, s.params.blockSize);
            var t := Written(s, h, i, b, buf);
            && |c| == s.inodes[i].size
            && Content(t.inodes[i], t.data, s.params.blockSize) ==
               if s.open[h].offset <= |c| then Overwrite(c, s.open[h].offset, buf) else c + Gap(s, h, i, b) + buf
  {
    hide Shaped, FirstFree, DirInv, TreeInv, Content, Written, Overwrite;
    OldContent(s, h, i, b);
    NewContent(s, h, i, b, buf);
    var p, size, at := b * s.params.blockSize, s.inodes[i].size, s.open[h].offset;
    if at <= size {
      OwnBytesOverwritten(s.data, p, size, at, buf);
    } else {
      GapKept(s.data, p, size, at, buf);
    }
  }

  // No other live inode owns the target block.
  lemma TargetIsPrivate(s: Fs, h: int, i: nat, b: nat, j: nat)
    requires Inv(s) && Target(s, h, i, b) && Live(s.inodeTaken, j) && j != i && s.inodes[j].size > 0
    ensures s.inodes[j].block != b
  {
    assert Owns(s.inodes, s.inodeTaken, j, s.inodes[j].block);
    assert s.inodes[i].size > 0 ==> Owns(s.inodes, s.inodeTaken, i, b);
  }

  // The file in slot k has content c after the write, and nothing else changes but
  // the handle.
  lemma WriteAbstraction(s: Fs, a: AFs, h: int, i: nat, b: nat, buf: seq<byte>, k: int, c: seq<byte>)
    requires Inv(s) && Represents(s, a) && Target(s, h, i, b) && buf != []
    requires s.open[h].offset + |buf| <= s.params.blockSize
    requires b * s.params.blockSize + s.params.blockSize <= |s.data|
    requires Used(s.dir, k) && s.dir[k].inumber == i && h in a.handles
    requires var t := Written(s, h, i, b, buf); Content(t.inodes[i], t.data, s.params.blockSize) == c
    ensures Shaped(Written(s, h, i, b, buf))
    ensures Represents(Written(s, h, i, b, buf),
                       a.(files := a.files[SlotName(s.dir, k) := c],
                          handles := a.handles[h := a.handles[h].(offset := s.open[h].offset + |buf|)]))
  {
    hide TreeInv, BlockInv, HandleRange, IsHandles, Content, DirInv, IsFiles;
    InvParts(s);
    var t := Written(s, h, i, b, buf);
    forall j | Used(s.dir, j) && j != k
      ensures Content(t.inodes[s.dir[j].inumber], t.data, s.params.blockSize) ==
              Content(s.inodes[s.dir[j].inumber], s.data, s.params.blockSize)
    {
      SlotFile(s, j, k);
      OtherContent(s, h, i, b, buf, s.dir[j].inumber);
    }
    OneSlotPerName(s.dir, k);
    FileReplaced(s.dir, s.inodes, s.data, t.inodes, t.data, s.params.blockSize, a.files, k, c);
    HandleMoved(s.dir, s.open, s.openTaken, a.handles, h, s.open[h].offset + |buf|);
  }

  lemma OneSlotPerName(dir: Dir, k: int)
    requires DirInv(dir) && Used(dir, k)
    ensures forall j :: Used(dir, j) && SlotName(dir, j) == SlotName(dir, k) ==> j == k
  {
  }

  lemma SlotFile(s: Fs, j: int, k: int)
    requires Inv(s) && Used(s.dir, j) && Used(s.dir, k) && j != k
    ensures s.dir[j].inumber != s.dir[k].inumber && Live(s.inodeTaken, s.dir[j].inumber)
  {
    assert LiveFile(s.inodeTaken, s.dir[j].inumber);
  }

  lemma OtherContent(s: Fs, h: int, i: nat, b: nat, buf: seq<byte>, j: nat)
    requires Inv(s) && Target(s, h, i, b) && Live(s.inodeTaken, j) && j != i && j < |s.inodes|
    requires s.open[h].offset + |buf| <= s.params.blockSize
    requires b * s.params.blockSize + s.params.blockSize <= |s.data|
    ensures var t := Written(s, h, i, b, buf);
            Content(t.inodes[j], t.data, s.params.blockSize) == Content(s.inodes[j], s.data, s.params.blockSize)
  {
    if s.inodes[j].size > 0 {
      TargetIsPrivate(s, h, i, b, j);
    }
    OtherFileKept(s, h, i, b, buf, j);
  }

  lemma DocumentedWrite(a: AFs, h: int, buf: seq<byte>)
    requires Connected(a) && HasFile(a, h) && buf != []
    requires a.handles[h].offset + |buf| <= a.params.blockSize
    requires FileOf(a, h) != [] || HasRoom(a)
    ensures var nm, at := a.handles[h].file.value, a.handles[h].offset;
            AWrite(a, h, buf) ==
            (a.(files := a.files[nm := Overwrite(a.files[nm], at, buf)],
                handles := a.handles[h := a.handles[h].(offset := at + |buf|)]), |buf|)
  {
    assert buf[..|buf|] == buf;
  }

  lemma RoomIsBlock(s: Fs, a: AFs)
    requires Inv(s) && Represents(s, a)
    ensures HasRoom(a) <==> FirstFree(s.blockTaken) < |s.blockTaken|
  {
    BlockCount(s, a);
    FirstFreeFailsWhenFull(s.blockTaken);
  }

  // A write that fits its block: where the bytes go, and what the file then is.
  lemma WriteResult(s: Fs, a: AFs, h: int, buf: seq<byte>) returns (t: Fs, b: nat, c: seq<byte>)
    requires Inv(s) && Represents(s, a) && Connected(a) && HasFile(a, h) && buf != []
    requires a.handles[h].offset + |buf| <= a.params.blockSize && (FileOf(a, h) != [] || HasRoom(a))
    ensures IsOpen(s, h) && |s.open| == |s.openTaken| && 0 <= s.open[h].inumber < |s.inodes|
    ensures Target(s, h, s.open[h].inumber, b)
    ensures var file, at := FileOf(a, h), a.handles[h].offset;
            && c == (if at <= |file| then Overwrite(file, at, buf) else file + Gap(s, h, s.open[h].inumber, b) + buf)
            && (at > |file| ==> |Gap(s, h, s.open[h].inumber, b)| == at - |file|)
    ensures TfsWrite(s, h, buf) == Done((t, |buf|)) && Inv(t)
    ensures Represents(t, a.(files := a.files[a.handles[h].file.value := c],
                             handles := a.handles[h := a.handles[h].(offset := a.handles[h].offset + |buf|)]))
  {
    hide DirInv, TreeInv, BlockInv, HandleRange, IsFiles, IsHandles, Used, SlotName;
    hide Content, Target, Written, TfsWrite, Overwrite, Gap;
    var k := HandleFacts(s, a, h);
    RoomIsBlock(s, a);
    var i;
    i, b := WriteTarget(s, h, buf);
    t := Written(s, h, i, b, buf);
    OwnContent(s, h, i, b, buf);
    if a.handles[h].offset > |FileOf(a, h)| {
      GapLength(s, h, i, b);
    }
    c := Content(t.inodes[i], t.data, s.params.blockSize);
    WriteInv(s, h, i, b, buf);
    WriteAbstraction(s, a, h, i, b, buf, k, c);
  }

  // A write inside one block replaces bytes [offset, offset + n) of its own file,
  // moves its own handle, and leaves every other file and handle alone.
  lemma WriteAgrees(s: Fs, a: AFs, h: int, buf: seq<byte>)
    requires Inv(s) && Represents(s, a) && Connected(a) && HasFile(a, h) && buf != []
    requires a.handles[h].offset + |buf| <= a.params.blockSize && (FileOf(a, h) != [] || HasRoom(a))
    requires a.handles[h].offset <= |FileOf(a, h)|
    ensures Match(TfsWrite(s, h, buf), AWrite(a, h, buf)) && Inv(TfsWrite(s, h, buf).value.0)
  {
    hide Inv, Represents, TfsWrite, AWrite, Overwrite, HasRoom;
    var t, b, c := WriteResult(s, a, h, buf);
    DocumentedWrite(a, h, buf);
  }

  // ---- when a write does not do what is documented ----

  // A write through a handle behind the end of its file does what is documented
  // exactly when the gap happens to hold zeroes already.
  lemma GapExact(s: Fs, a: AFs, h: int, buf: seq<byte>)
    requires Inv(s) && Represents(s, a) && Connected(a) && HasFile(a, h) && buf != []
    requires a.handles[h].offset + |buf| <= a.params.blockSize && (FileOf(a, h) != [] || HasRoom(a))
    requires a.handles[h].offset > |FileOf(a, h)|
    ensures Match(TfsWrite(s, h, buf), AWrite(a, h, buf)) <==> GapIsZero(s, h)
    ensures TfsWrite(s, h, buf).Done? && Inv(TfsWrite(s, h, buf).value.0)
  {
    hide Inv, TfsWrite, AWrite, HasRoom, IsFiles, IsHandles, Gap;
    var t, b, c := WriteResult(s, a, h, buf);
    DocumentedWrite(a, h, buf);
    var file, at, nm := FileOf(a, h), a.handles[h].offset, a.handles[h].file.value;
    var b' := AWrite(a, h, buf).0;
    GapZero(s, a, h, b);
    if Represents(t, b') {
      InvShaped(t);
      SameFiles(t.dir, t.inodes, t.data, t.params.blockSize, b'.files, a.files[nm := c]);
      assert b'.files[nm] == c;
      SameMiddle(file, Gap(s, h, s.open[h].inumber, b), Zeros(at - |file|), buf);
    }
  }

  lemma SameMiddle(x: seq<byte>, y: seq<byte>, z: seq<byte>, w: seq<byte>)
    requires x + y + w == x + z + w
    ensures y == z
  {
    assert |y| == |z|;
    forall j | 0 <= j < |y| ensures y[j] == z[j] {
      assert (x + y + w)[|x| + j] == (x + z + w)[|x| + j];
    }
  }

  // The block that a write through handle h goes to.
  function TargetBlock(s: Fs, h: int): int
    requires Shaped(s) && IsOpen(s, h) && ValidInumber(s, s.open[h].inumber)
  {
    if s.inodes[s.open[h].inumber].size == 0 then FirstFree(s.blockTaken) else s.inodes[s.open[h].inumber].block
  }

  // That block holds zeroes between the end of the file and the handle.
  ghost predicate GapIsZero(s: Fs, h: int)
    requires Inv(s) && IsOpen(s, h)
  {
    assert Live(s.openTaken, h);
    var p, i := TargetBlock(s, h) * s.params.blockSize, s.open[h].inumber;
    forall q :: p + s.inodes[i].size <= q < p + s.open[h].offset && 0 <= q < |s.data| ==> s.data[q] == NUL
  }

  lemma GapZero(s: Fs, a: AFs, h: int, b: nat)
    requires Inv(s) && Represents(s, a) && Connected(a) && HasFile(a, h)
    requires IsOpen(s, h) && |s.open| == |s.openTaken| && 0 <= s.open[h].inumber < |s.inodes|
    requires Target(s, h, s.open[h].inumber, b) && a.handles[h].offset > |FileOf(a, h)|
    ensures GapIsZero(s, h) <==> Gap(s, h, s.open[h].inumber, b) == Zeros(a.handles[h].offset - |FileOf(a, h)|)
  {
    hide DirInv, TreeInv, BlockInv, IsFiles, IsHandles, Content;
    var k := HandleFacts(s, a, h);
    BlockFits(s, b);
    var p, size, at := b * s.params.blockSize, s.inodes[s.open[h].inumber].size, s.open[h].offset;
    var gap := Gap(s, h, s.open[h].inumber, b);
    assert |gap| == at - size && forall j :: 0 <= j < |gap| ==> gap[j] == s.data[p + size + j];
    if gap == Zeros(at - size) {
      forall q | p + size <= q < p + at ensures s.data[q] == NUL {
        assert gap[q - p - size] == NUL;
      }
    }
  }

  // What tfs_write does when the copy would leave its block: if it returns, it
  // answers with all of the bytes, and the file is larger than a block.
  lemma WriteOverflows(s: Fs, a: AFs, h: int, buf: seq<byte>)
    requires Inv(s) && Represents(s, a) && Connected(a) && HasFile(a, h) && buf != []
    requires a.handles[h].offset + |buf| > a.params.blockSize && (FileOf(a, h) != [] || HasRoom(a))
    ensures TfsWrite(s, h, buf).Done? ==>
              var (t, n) := TfsWrite(s, h, buf).value;
              && n == |buf| && h < |t.open| && 0 <= t.open[h].inumber < |t.inodes|
              && t.inodes[t.open[h].inumber].size > t.params.blockSize
    ensures AWrite(a, h, buf).1 < |buf| && !Match(TfsWrite(s, h, buf), AWrite(a, h, buf))
  {
    hide DirInv, TreeInv, BlockInv, IsFiles, IsHandles, Content;
    var k := HandleFacts(s, a, h);
    RoomIsBlock(s, a);
    hide Represents;
  }

  // For want of a block an empty file cannot be written, and nothing changes. The
  // documentation agrees unless the handle stands at the end of the block, where
  // it has 0 bytes written.
  lemma WriteWithoutBlock(s: Fs, a: AFs, h: int, buf: seq<byte>)
    requires Inv(s) && Represents(s, a) && Connected(a) && HasFile(a, h) && buf != []
    requires FileOf(a, h) == [] && !HasRoom(a)
    ensures TfsWrite(s, h, buf) == Done((s, -1))
    ensures Match(TfsWrite(s, h, buf), AWrite(a, h, buf)) <==> a.handles[h].offset < a.params.blockSize
  {
    hide DirInv, TreeInv, BlockInv, IsFiles, IsHandles, Content;
    var k := HandleFacts(s, a, h);
    RoomIsBlock(s, a);
  }

  // A handle whose file is gone: an error as read here, and the code
  // writes through the old inode unless that is empty and no block is free.
  lemma WriteStale(s: Fs, a: AFs, h: int, buf: seq<byte>)
    requires Inv(s) && Represents(s, a) && Connected(a) && IsOpen(s, h) && !HasFile(a, h)
    ensures TfsWrite(s, h, buf).Done? && TfsWrite(s, h, buf).value.1 == -1 ==> TfsWrite(s, h, buf).value.0 == s
    ensures Match(TfsWrite(s, h, buf), AWrite(a, h, buf)) <==> buf != [] && OldInodeEmpty(s, h) && !HasRoom(a)
    ensures Match(TfsWrite(s, h, buf), AWrite(a, h, buf)) ==> TfsWrite(s, h, buf).value.0 == s
  {
    hide DirInv, TreeInv, BlockInv, IsFiles, IsHandles;
    LiveHandles(s, a, h);
    RoomIsBlock(s, a);
  }

  ghost predicate OldInodeEmpty(s: Fs, h: int)
    requires Inv(s) && IsOpen(s, h)
  {
    assert Live(s.openTaken, h);
    s.inodes[s.open[h].inumber].size == 0
  }

  // A write through a stranded handle that agrees with the documentation only by
  // accident of what the tables and the buffer hold.
  ghost predicate Lucky(s: Fs, a: AFs, h: int, buf: seq<byte>)
    requires Inv(s) && Connected(a)
  {
    && IsOpen(s, h) && buf != []
    && if !HasFile(a, h) then OldInodeEmpty(s, h) && !HasRoom(a)
       else
         && a.handles[h].offset > |FileOf(a, h)|
         && if FileOf(a, h) == [] && !HasRoom(a) then a.handles[h].offset < a.params.blockSize
            else a.handles[h].offset + |buf| <= a.params.blockSize && GapIsZero(s, h)
  }

  // tfs_write meets its documentation exactly when the write is proper, or by
  // accident.
  lemma WriteExact(s: Fs, a: AFs, h: int, buf: seq<byte>)
    requires Inv(s) && Represents(s, a) && Connected(a)
    ensures Match(TfsWrite(s, h, buf), AWrite(a, h, buf)) <==> Proper(a, Write(h, buf)) || Lucky(s, a, h, buf)
    ensures Match(TfsWrite(s, h, buf), AWrite(a, h, buf)) ==> Inv(TfsWrite(s, h, buf).value.0)
  {
    hide Inv, Represents, TfsWrite, AWrite, HasRoom, GapIsZero, OldInodeEmpty, Match;
    InvShaped(s);
    RepresentsParams(s, a);
    LiveHandles(s, a, h);
    if !IsOpen(s, h) || (HasFile(a, h) && buf == []) {
      WriteNothing(s, a, h, buf);
    } else if !HasFile(a, h) {
      WriteStale(s, a, h, buf);
    } else if FileOf(a, h) == [] && !HasRoom(a) {
      WriteWithoutBlock(s, a, h, buf);
    } else if a.handles[h].offset + |buf| > a.params.blockSize {
      WriteOverflows(s, a, h, buf);
    } else if a.handles[h].offset > |FileOf(a, h)| {
      GapExact(s, a, h, buf);
    } else {
      WriteAgrees(s, a, h, buf);
    }
  }

  // Nothing is written through a handle that is not open, or from an empty buffer.
  lemma WriteNothing(s: Fs, a: AFs, h: int, buf: seq<byte>)
    requires Inv(s) && Represents(s, a) && Connected(a) && (!IsOpen(s, h) || (HasFile(a, h) && buf == []))
    ensures Match(TfsWrite(s, h, buf), AWrite(a, h, buf)) && TfsWrite(s, h, buf).value.0 == s
    ensures Proper(a, Write(h, buf))
  {
    hide DirInv, TreeInv, BlockInv, IsFiles, IsHandles;
    LiveHandles(s, a, h);
  }
}
