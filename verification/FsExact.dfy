// What the calls do in every case, told from bytes, block numbers and lengths
// alone: which names they take, and what a transfer moves when it runs past its
// file or goes through a handle whose file is gone.
module FsExact {
  import opened Prelude
  import opened Bytes
  import opened FsModel
  import opened FsAbstract
  import opened FsInvariant
  import opened FsDirectory
  import opened FsConservation
  import opened FsRefinement
  import opened FsOpening
  import opened FsUnlinking
  import opened FsWriting

  // ---- reading ----

  // From byte pos of the buffer, len bytes of which are read through handle h.
  ghost predicate Delivers(s: Fs, h: nat, pos: int, len: nat)
    requires Shaped(s) && h < |s.open|
  {
    var r := TfsRead(s, h, len);
    && 0 <= pos && pos + len <= |s.data| && r.Done? && r.value.1.Some? && |r.value.1.value| == len
    && (forall k :: 0 <= k < len ==> r.value.1.value[k] == s.data[pos + k])
    && r.value.0 == s.(open := s.open[h := OpenFile(s.open[h].inumber, s.open[h].offset + len)])
  }

  // tfs_read through any open handle, wherever it stands and whether or not its
  // file is still there. It answers with exactly the bytes from the block of its
  // inode and its offset on, cut nowhere. Without a block it panics, and what runs
  // over the end of the buffer is outside the file system's memory.
  lemma ReadExactly(s: Fs, a: AFs, h: nat, len: nat)
    requires Inv(s) && Represents(s, a) && h in a.handles && len > 0
    ensures h < |s.open| && 0 <= s.open[h].inumber < |s.inodes| && s.open[h].offset == a.handles[h].offset
    ensures var b, r := s.inodes[s.open[h].inumber].block, TfsRead(s, h, len);
            var pos := b * s.params.blockSize + s.open[h].offset;
            && (r == Panic <==> b < 0 || b >= s.params.maxBlocks)
            && (r == Wild <==> 0 <= b < s.params.maxBlocks && pos + len > |s.data|)
            && (r.Done? <==> 0 <= b < s.params.maxBlocks && pos + len <= |s.data|)
            && (r.Done? ==> Delivers(s, h, pos, len))
  {
    hide DirInv, TreeInv, BlockInv, IsFiles;
    LiveHandles(s, a, h);
    assert Live(s.openTaken, h);
    var b := s.inodes[s.open[h].inumber].block;
    if 0 <= b {
      MulMono(0, b, s.params.blockSize);
    }
  }

  // For a handle whose file has bytes, these bytes begin with what the file has left
  // at the offset, however many are asked for; only that handle moves, and by all of
  // them.
  lemma ReadBeginsWithFile(s: Fs, a: AFs, h: nat, len: nat)
    requires Inv(s) && Represents(s, a) && Connected(a) && HasFile(a, h) && FileOf(a, h) != [] && len > 0
    ensures h < |s.open| && 0 <= s.open[h].inumber < |s.inodes|
    ensures var b, r := s.inodes[s.open[h].inumber].block, TfsRead(s, h, len);
            && 0 <= b < s.params.maxBlocks
            && (r == Wild <==> b * s.params.blockSize + a.handles[h].offset + len > |s.data|)
            && (r == Wild || r.Done?)
            && (r.Done? ==>
                  var (t, bytes) := r.value;
                  && bytes.Some? && |bytes.value| == len
                  && (forall k :: 0 <= k < len && a.handles[h].offset + k < |FileOf(a, h)| ==>
                        bytes.value[k] == FileOf(a, h)[a.handles[h].offset + k])
                  && Represents(t, a.(handles := a.handles[h := Handle(a.handles[h].file, a.handles[h].offset + len)])))
  {
    hide DirInv, TreeInv, IsFiles, IsHandles, TfsRead;
    var k := HandleFacts(s, a, h);
    var i := s.open[h].inumber;
    assert Owns(s.inodes, s.inodeTaken, i, s.inodes[i].block);
    hide BlockInv;
    BlockFits(s, s.inodes[i].block);
    ReadExactly(s, a, h, len);
    if TfsRead(s, h, len).Done? {
      OffsetReplaced(s, a, h, s.open[h].offset + len);
    }
  }

  // A handle moves, possibly out of its file and its block.
  lemma OffsetReplaced(s: Fs, a: AFs, h: nat, offset: nat)
    requires Shaped(s) && Represents(s, a) && h in a.handles && h < |s.open|
    ensures var t := s.(open := s.open[h := OpenFile(s.open[h].inumber, offset)]);
            Shaped(t) && Represents(t, a.(handles := a.handles[h := Handle(a.handles[h].file, offset)]))
  {
    hide IsFiles, Links;
  }

  // ---- writing ----

  // The block that a write through a handle on inode i goes to: the inode's own if
  // it has bytes, the lowest FREE one otherwise.
  ghost predicate BlockFor(s: Fs, i: nat, b: int)
    requires i < |s.inodes|
  {
    if s.inodes[i].size > 0 then b == s.inodes[i].block
    else 0 <= b < |s.blockTaken| && !s.blockTaken[b] && forall x :: 0 <= x < b ==> s.blockTaken[x]
  }

  // The state after buf was copied to byte pos of the buffer through handle h on
  // inode i, into block b.
  ghost predicate Copied(s: Fs, t: Fs, h: nat, i: nat, b: int, pos: int, buf: seq<byte>)
    requires Shaped(s) && h < |s.open| && i < |s.inodes| && 0 <= b < |s.blockTaken|
  {
    var end := s.open[h].offset + |buf|;
    && 0 <= pos && pos + |buf| <= |s.data| == |t.data|
    && (forall q :: 0 <= q < |s.data| ==> t.data[q] == if pos <= q < pos + |buf| then buf[q - pos] else s.data[q])
    && t == s.(
         data := t.data,
         open := s.open[h := OpenFile(i, end)],
         inodes := s.inodes[i := Inode(s.inodes[i].kind, if s.inodes[i].size < end then end else s.inodes[i].size, b)],
         blockTaken := if s.inodes[i].size > 0 then s.blockTaken else s.blockTaken[b := true])
  }

  // tfs_write through any open handle. Every byte goes to the block and the offset,
  // cut nowhere, and no other byte of the buffer changes.
  lemma WriteExactly(s: Fs, a: AFs, h: nat, buf: seq<byte>, b: int)
    requires Inv(s) && Represents(s, a) && h in a.handles && buf != []
    requires h < |s.open| && 0 <= s.open[h].inumber < |s.inodes| && BlockFor(s, s.open[h].inumber, b)
    ensures var pos, r := b * s.params.blockSize + s.open[h].offset, TfsWrite(s, h, buf);
            && (r == Panic <==> b < 0 || b >= s.params.maxBlocks)
            && (r == Wild <==> 0 <= b < s.params.maxBlocks && pos + |buf| > |s.data|)
            && (r.Done? <==> 0 <= b < s.params.maxBlocks && pos + |buf| <= |s.data|)
            && (r.Done? ==> r.value.1 == |buf| && Copied(s, r.value.0, h, s.open[h].inumber, b, pos, buf))
  {
    hide DirInv, TreeInv, BlockInv, IsFiles;
    LiveHandles(s, a, h);
    if s.inodes[s.open[h].inumber].size == 0 {
      LowestIs(s.blockTaken, b);
    }
    if 0 <= b {
      MulMono(0, b, s.params.blockSize);
    }
  }

  lemma LowestIs(taken: seq<bool>, b: int)
    requires 0 <= b < |taken| && !taken[b] && forall x :: 0 <= x < b ==> taken[x]
    ensures FirstFree(taken) == b
  {
  }

  // Without such a block, nothing happens.
  lemma WriteFindsNoBlock(s: Fs, a: AFs, h: nat, buf: seq<byte>)
    requires Inv(s) && Represents(s, a) && h in a.handles && buf != []
    requires h < |s.open| && 0 <= s.open[h].inumber < |s.inodes|
    requires forall b :: !BlockFor(s, s.open[h].inumber, b)
    ensures TfsWrite(s, h, buf) == Done((s, -1))
  {
    hide DirInv, TreeInv, BlockInv, IsFiles;
    LiveHandles(s, a, h);
    var i := s.open[h].inumber;
    assert !BlockFor(s, i, s.inodes[i].block);
    assert !BlockFor(s, i, FirstFree(s.blockTaken));
  }

  // ---- names ----

  // The character at position j, the terminator included.
  function CharAt(nm: CString, j: nat): byte {
    if j < |nm| then nm[j] else 0
  }

  // strncmp over 40 bytes finds no difference before the first NUL.
  lemma StrncmpIs(a: NameBuf, nm: CString)
    ensures SameName(a, nm) <==>
              forall j :: 0 <= j < 40 && (forall i :: 0 <= i < j ==> a[i] != 0) ==> a[j] == CharAt(nm, j)
  {
    var n := StrLen(a);
    assert CharAt(nm, |nm|) == 0;
    if forall j :: 0 <= j < 40 && (forall i :: 0 <= i < j ==> a[i] != 0) ==> a[j] == CharAt(nm, j) {
      assert forall j :: 0 <= j < n ==> a[j] == CharAt(nm, j);
      assert n < 40 ==> a[n] == CharAt(nm, n);
      assert n <= |nm|;
      assert CStr(a) == nm[..n];
      assert n < 40 ==> n == |nm|;
    }
    if SameName(a, nm) {
      assert forall j :: 0 <= j < n ==> a[j] == CStr(a)[j];
    }
  }

  // strcmp sees the whole name, and runs out of the 40 bytes exactly if they are
  // its first ones.
  lemma StrcmpIs(a: NameBuf, nm: CString)
    ensures StrCmpEqual(a, nm) == Done(true) <==> |nm| < 40 && a[..|nm|] == nm && a[|nm|] == 0
    ensures StrCmpEqual(a, nm) == Wild <==> |nm| >= 40 && a == nm[..40]
    ensures StrCmpEqual(a, nm) in {Done(true), Done(false), Wild}
  {
    var n := StrLen(a);
    if |nm| < 40 && a[..|nm|] == nm && a[|nm|] == 0 {
      assert forall j :: 0 <= j < |nm| ==> a[j] == nm[j];
      StrLenIs(a, |nm|);
    }
    if |nm| >= 40 && a == nm[..40] {
      assert forall j :: 0 <= j < 40 ==> a[j] == nm[j];
      StrLenIs(a, 40);
    }
  }

  // A path is one '/' and a name behind it.
  predicate IsPath(name: seq<byte>) {
    |name| >= 2 && name[0] == 47
  }

  // There is room for a file of that name: it has at most 39 characters, and there
  // is one more inode and one more entry of 44 bytes in the root's block.
  predicate MayCreate(a: AFs, name: seq<byte>) {
    IsPath(name) && |name[1..]| <= 39 && 1 + |a.files| < a.params.maxInodes && |a.files| < a.params.blockSize / 44
  }

  // The paths and the room that the code and the documented file system go by.
  lemma PathsAre(a: AFs, name: CString)
    ensures ValidPathname(name) <==> IsPath(name)
    ensures IsPath(name) ==> (CanCreate(a, name[1..]) <==> MayCreate(a, name))
  {
  }

  // tfs_open yields a handle exactly for a path, while an entry of the open-file
  // table is free, if the name is in use or may be created.
  lemma OpenExactly(s: Fs, a: AFs, name: CString, mode: Mode)
    requires Inv(s) && Represents(s, a)
    ensures var r := TfsOpen(s, name, mode);
            && r.Done? && r.value.1 >= -1
            && (r.value.1 >= 0 <==>
                  && IsPath(name) && (exists g: nat :: g < |s.openTaken| && !s.openTaken[g])
                  && (name[1..] in a.files || (mode.creat && MayCreate(a, name))))
            && (!IsPath(name) ==> r.value == (s, -1))
            && (r.value.1 >= 0 ==> exists b :: Represents(r.value.0, b) && name[1..] in b.files)
  {
    hide Inv, Represents, TfsOpen;
    InvShaped(s);
    RepresentsParams(s, a);
    OpenAgrees(s, a, name, mode);
    DocumentedOpens(a, name, mode);
    FreeEntry(s, a);
    if !IsPath(name) {
      NoPath(s, name, mode);
    }
  }

  lemma NoPath(s: Fs, name: CString, mode: Mode)
    requires Shaped(s) && !IsPath(name)
    ensures TfsOpen(s, name, mode) == Done((s, -1)) && TfsUnlink(s, name) == Done((s, -1))
  {
  }

  // The same about the documented file system.
  lemma DocumentedOpens(a: AFs, name: CString, mode: Mode)
    ensures var (b, h) := AOpen(a, name, mode);
            && h >= -1
            && (h >= 0 <==>
                  && IsPath(name) && LowestFree(a.handles.Keys, a.params.maxOpen) < a.params.maxOpen
                  && (name[1..] in a.files || (mode.creat && MayCreate(a, name))))
            && (h >= 0 ==> name[1..] in b.files)
  {
  }

  lemma FreeEntry(s: Fs, a: AFs)
    requires Shaped(s) && Represents(s, a)
    ensures LowestFree(a.handles.Keys, a.params.maxOpen) < a.params.maxOpen <==>
            exists g: nat :: g < |s.openTaken| && !s.openTaken[g]
  {
    hide IsFiles, Links;
    var h := LowestFree(a.handles.Keys, a.params.maxOpen);
    if h < a.params.maxOpen {
      assert h !in a.handles && !Live(s.openTaken, h);
    }
    if g: nat :| g < |s.openTaken| && !s.openTaken[g] {
      assert !Live(s.openTaken, g) && g !in a.handles;
    }
  }

  // tfs_unlink removes exactly a path's name that is in use; everything else is
  // refused without a change.
  lemma UnlinkExactly(s: Fs, a: AFs, name: CString)
    requires Inv(s) && Represents(s, a)
    ensures var r := TfsUnlink(s, name);
            && r.Done?
            && (r.value.1 == 0 <==> IsPath(name) && name[1..] in a.files)
            && (r.value.1 != 0 ==> r.value == (s, -1))
            && (r.value.1 == 0 ==> exists b :: Represents(r.value.0, b) && b.files == a.files - {name[1..]})
  {
    hide Inv, Represents, TfsUnlink, Detached;
    InvShaped(s);
    UnlinkAgrees(s, a, name);
    if !IsPath(name) {
      NoPath(s, name, Mode(false, false, false));
    } else if name[1..] !in a.files {
      UnknownName(s, a, name);
    }
  }

  lemma UnknownName(s: Fs, a: AFs, name: CString)
    requires Inv(s) && Represents(s, a) && IsPath(name) && name[1..] !in a.files
    ensures TfsUnlink(s, name) == Done((s, -1))
  {
    hide Represents, DirInv, TreeInv, BlockInv, HandleRange, IsFiles, IsHandles;
    NotFound(s, a, name[1..]);
  }

  // ---- what is left of a file without bytes ----

  // A new file has an inode without a block, so that reading from it, through any
  // handle, panics until its first byte is written.
  lemma NewFilePanics(s: Fs, a: AFs, name: CString, mode: Mode, len: nat)
    requires Inv(s) && Represents(s, a) && IsPath(name) && name[1..] !in a.files && len > 0
    ensures var r := TfsOpen(s, name, mode);
            r.Done? && r.value.1 >= 0 ==>
              var (t, h) := r.value;
              && h < |t.open| && 0 <= t.open[h].inumber < |t.inodes|
              && t.inodes[t.open[h].inumber] == Inode(TFile, 0, -1) && TfsRead(t, h, len) == Panic
  {
    hide Represents, DirInv, TreeInv, BlockInv, HandleRange, IsFiles, IsHandles;
    RootReady(s);
    NotFound(s, a, name[1..]);
    if mode.creat {
      hide Inv, TfsOpen, TfsRead, FindInDir;
      InvShaped(s);
      NameGiven(name);
      OpenNewIs(s, name, mode);
      CreatedRead(s, name, mode, len);
    }
  }

  lemma CreatedRead(s: Fs, name: CString, mode: Mode, len: nat)
    requires Shaped(s) && ValidPathname(name) && mode.creat && len > 0
    requires ValidInumber(s, ROOT_DIR_INUM) && s.inodeTaken[ROOT_DIR_INUM]
    requires s.inodes[ROOT_DIR_INUM].kind == TDirectory && ValidBlock(s, s.inodes[ROOT_DIR_INUM].block)
    requires FindInDir(s, s.inodes[ROOT_DIR_INUM], name[1..]) == Done(-1)
    ensures var r := TfsOpen(s, name, mode);
            r.Done? && r.value.1 >= 0 ==>
              var (t, h) := r.value;
              && h < |t.open| && 0 <= t.open[h].inumber < |t.inodes|
              && t.inodes[t.open[h].inumber] == Inode(TFile, 0, -1) && TfsRead(t, h, len) == Panic
  {
    hide FindInDir, MatchingSlot, EmptySlot, Padded;
  }

  // A truncated file keeps the number of the block it gave up, so that reading from
  // it delivers the old bytes as long as nobody has written over them.
  lemma TruncatedStillReads(s: Fs, a: AFs, name: CString, mode: Mode)
    requires Inv(s) && Represents(s, a) && IsPath(name) && name[1..] in a.files && a.files[name[1..]] != []
    requires mode.trunc && TfsOpen(s, name, mode).Done? && TfsOpen(s, name, mode).value.1 >= 0
    ensures var (t, h) := TfsOpen(s, name, mode).value;
            && Represents(t, AOpen(a, name, mode).0) && AOpen(a, name, mode).0.files[name[1..]] == []
            && Shaped(t)
            && (var r := TfsRead(t, h, |a.files[name[1..]]|); r.Done? && r.value.1 == Some(a.files[name[1..]]))
  {
    hide Inv, Represents, TfsOpen, TfsRead, Content, AOpen;
    OpenAgrees(s, a, name, mode);
    TruncatedIsEmpty(a, name, mode);
    InvShaped(s);
    RootReady(s);
    var k, i := Found(s, a, name[1..]);
    OldBlock(s, a, name, i);
    TruncatedRead(s, name, mode, i, |a.files[name[1..]]|);
  }

  lemma TruncatedIsEmpty(a: AFs, name: CString, mode: Mode)
    requires IsPath(name) && name[1..] in a.files && mode.trunc
    ensures name[1..] in AOpen(a, name, mode).0.files && AOpen(a, name, mode).0.files[name[1..]] == []
  {
  }

  lemma OldBlock(s: Fs, a: AFs, name: CString, i: int)
    requires Inv(s) && LiveFile(s.inodeTaken, i) && 0 <= i < |s.inodes|
    requires IsPath(name) && name[1..] in a.files && a.files[name[1..]] != []
    requires a.files[name[1..]] == Content(s.inodes[i], s.data, s.params.blockSize)
    requires |a.files[name[1..]]| == s.inodes[i].size
    ensures ValidBlock(s, s.inodes[i].block) && 0 <= s.inodes[i].block * s.params.blockSize
    ensures var p := s.inodes[i].block * s.params.blockSize;
            p + s.inodes[i].size <= |s.data| && a.files[name[1..]] == s.data[p..p + s.inodes[i].size]
  {
    hide DirInv, TreeInv;
    assert Owns(s.inodes, s.inodeTaken, i, s.inodes[i].block);
    MulMono(0, s.inodes[i].block, s.params.blockSize);
    BlockFits(s, s.inodes[i].block);
  }

  lemma TruncatedRead(s: Fs, name: CString, mode: Mode, i: int, len: nat)
    requires Shaped(s) && IsPath(name) && mode.trunc && ValidInumber(s, ROOT_DIR_INUM) && ValidInumber(s, i)
    requires FindInDir(s, s.inodes[ROOT_DIR_INUM], name[1..]) == Done(i) && 0 < len == s.inodes[i].size
    requires ValidBlock(s, s.inodes[i].block) && 0 <= s.inodes[i].block * s.params.blockSize
    requires s.inodes[i].block * s.params.blockSize + len <= |s.data|
    requires TfsOpen(s, name, mode).Done? && TfsOpen(s, name, mode).value.1 >= 0
    ensures var (t, h) := TfsOpen(s, name, mode).value;
            var p := s.inodes[i].block * s.params.blockSize;
            Shaped(t) && TfsRead(t, h, len).Done? && TfsRead(t, h, len).value.1 == Some(s.data[p..p + len])
  {
    hide FindInDir;
  }

  // An inode is deleted once: the second time, the assertion ends the process.
  lemma DeletedOnce(s: Fs, i: int)
    requires Shaped(s)
    ensures InodeDelete(s, i).Done? ==> InodeDelete(InodeDelete(s, i).value, i) == Panic
  {
  }

  // An unlinked file's inode keeps what it held, and so do all handles: only its
  // entries in the allocation tables and in the directory change.
  lemma UnlinkTables(s: Fs, a: AFs, name: CString)
    requires Inv(s) && Represents(s, a)
    ensures var r := TfsUnlink(s, name);
            && r.Done? && r.value.0.inodes == s.inodes && r.value.0.data == s.data
            && r.value.0.open == s.open && r.value.0.openTaken == s.openTaken && r.value.0.params == s.params
            && (r.value.1 == 0 ==>
                  exists i: nat :: i < |s.inodes| && i < |s.inodeTaken| && Links(s.dir, name[1..], i) &&
                                   r.value.0.inodeTaken == s.inodeTaken[i := false])
  {
    hide Inv, Represents, TfsUnlink, Used, SlotName, Links;
    UnlinkExactly(s, a, name);
    if IsPath(name) && name[1..] in a.files {
      var i, k := UnlinkFound(s, a, name);
      LinksOf(s.dir, k, name[1..], i);
    }
  }

  lemma LinksOf(dir: Dir, k: int, nm: Name, i: int)
    requires Used(dir, k) && SlotName(dir, k) == nm && dir[k].inumber == i
    ensures Links(dir, nm, i)
  {
  }
}
