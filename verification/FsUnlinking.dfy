// tfs_unlink: the inode is deleted, its block freed and its directory slot cleared.
module FsUnlinking {
  import opened Prelude
  import opened Bytes
  import opened FsModel
  import opened FsAbstract
  import opened FsInvariant
  import opened FsDirectory
  import opened FsBlocks
  import opened FsRefinement
  import opened FsOpening

  function WithoutFile(s: Fs, i: nat, k: nat): Fs
    requires i < |s.inodes| && i < |s.inodeTaken| && k < |s.dir|
    requires s.inodes[i].size > 0 ==> ValidBlock(s, s.inodes[i].block)
  {
    s.(
    inodeTaken := s.inodeTaken[i := false],
    blockTaken := if s.inodes[i].size > 0 then s.blockTaken[s.inodes[i].block := false] else s.blockTaken,
    dir := s.dir[k := DirEntry(Zeros(MAX_FILE_NAME), -1)])
  }

  // A cleared slot keeps the directory in order.
  lemma SlotCleared(dir: Dir, k: nat)
    requires DirInv(dir) && Used(dir, k)
    ensures DirInv(dir[k := DirEntry(Zeros(MAX_FILE_NAME), -1)])
  {
    hide SlotNamed, SlotOf, StrLen, HasSlot, Named;
    var dir' := dir[k := DirEntry(Zeros(MAX_FILE_NAME), -1)];
    forall j | Used(dir', j)
      ensures 1 <= |SlotName(dir', j)| < MAX_FILE_NAME
      ensures SlotNamed(dir', SlotName(dir', j)) == j && SlotOf(dir', dir'[j].inumber) == j
    {
      OthersFound(dir, k, j);
    }
    assert Clean(dir'[k]) by { StrLenIs(Zeros(MAX_FILE_NAME), 0); }
    forall j | 0 <= j < UsedEnd(dir') ensures Clean(dir'[j]) {
      assert Used(dir', UsedEnd(dir') - 1) && Used(dir, UsedEnd(dir') - 1);
    }
  }

  // The slots that stay in use are still the ones of their names and inodes.
  lemma OthersFound(dir: Dir, k: nat, j: int)
    requires DirInv(dir) && Used(dir, k) && Used(dir[k := DirEntry(Zeros(MAX_FILE_NAME), -1)], j)
    ensures var dir' := dir[k := DirEntry(Zeros(MAX_FILE_NAME), -1)];
            && Used(dir, j) && 1 <= |SlotName(dir', j)| < MAX_FILE_NAME
            && SlotNamed(dir', SlotName(dir', j)) == j && SlotOf(dir', dir'[j].inumber) == j
  {
    hide UsedEnd, Clean, SlotNamed, SlotOf, StrLen;
    var dir' := dir[k := DirEntry(Zeros(MAX_FILE_NAME), -1)];
    assert Used(dir, j) && dir'[j] == dir[j];
    assert HasSlot(dir', SlotName(dir', j)) && Named(dir', dir'[j].inumber);
    var n, o := SlotNamed(dir', SlotName(dir', j)), SlotOf(dir', dir'[j].inumber);
    assert Used(dir, n) && dir'[n] == dir[n] && Used(dir, o) && dir'[o] == dir[o];
  }

  lemma FileUnlinked(dir: Dir, inodes: Inodes, taken: seq<bool>, k: nat, i: nat)
    requires |inodes| == |taken| && DirInv(dir) && TreeInv(dir, inodes, taken)
    requires Used(dir, k) && dir[k].inumber == i && i < |taken|
    ensures TreeInv(dir[k := DirEntry(Zeros(MAX_FILE_NAME), -1)], inodes, taken[i := false])
  {
    var dir' := dir[k := DirEntry(Zeros(MAX_FILE_NAME), -1)];
    forall j | Used(dir', j) ensures LiveFile(taken[i := false], dir'[j].inumber) {
      assert Used(dir, j);
    }
    forall j | LiveFile(taken[i := false], j) ensures inodes[j].kind == TFile && Named(dir', j) {
      assert LiveFile(taken, j);
      var o := SlotOf(dir, j);
      assert Used(dir', o) && dir'[o].inumber == j;
    }
  }

  lemma UnlinkInv(s: Fs, i: nat, k: nat)
    requires Inv(s) && Used(s.dir, k) && s.dir[k].inumber == i
    ensures i < |s.inodes| && i < |s.inodeTaken| && (s.inodes[i].size > 0 ==> ValidBlock(s, s.inodes[i].block))
    ensures Inv(WithoutFile(s, i, k))
  {
    hide DirInv, BlockInv;
    InvParts(s);
    assert LiveFile(s.inodeTaken, i);
    BlockReleased(s.inodes, s.inodeTaken, s.blockTaken, s.params.blockSize, i, s.inodes, s.inodeTaken[i := false]);
    SlotCleared(s.dir, k);
    FileUnlinked(s.dir, s.inodes, s.inodeTaken, k, i);
  }

  // The handles of the file in slot k lose it, and the others keep theirs.
  lemma HandlesDetached(dir: Dir, open: seq<OpenFile>, openTaken: seq<bool>, m: map<nat, Handle>, k: nat)
    requires |open| == |openTaken| && DirInv(dir) && Used(dir, k) && IsHandles(dir, open, openTaken, m)
    ensures IsHandles(dir[k := DirEntry(Zeros(MAX_FILE_NAME), -1)], open, openTaken, Detached(m, SlotName(dir, k)))
  {
    hide DirInv, SlotName, Links, Zeros;
    var nm := SlotName(dir, k);
    forall h: nat | h in m && m[h].file.Some? && m[h].file.value != nm && Live(openTaken, h)
      ensures Links(dir[k := DirEntry(Zeros(MAX_FILE_NAME), -1)], m[h].file.value, open[h].inumber)
    {
      StillLinked(dir, k, m[h].file.value, open[h].inumber);
    }
  }

  lemma StillLinked(dir: Dir, k: int, nm: Name, i: int)
    requires Used(dir, k) && Links(dir, nm, i) && nm != SlotName(dir, k)
    ensures Links(dir[k := DirEntry(Zeros(MAX_FILE_NAME), -1)], nm, i)
  {
    hide StrLen, CStr;
    var dir' := dir[k := DirEntry(Zeros(MAX_FILE_NAME), -1)];
    var j :| Used(dir, j) && SlotName(dir, j) == nm && dir[j].inumber == i;
    assert Used(dir', j) && SlotName(dir', j) == nm && dir'[j].inumber == i;
  }

  lemma UnlinkAbstraction(s: Fs, a: AFs, i: nat, k: nat)
    requires Inv(s) && Represents(s, a) && Used(s.dir, k) && s.dir[k].inumber == i
    requires i < |s.inodes| && i < |s.inodeTaken| && (s.inodes[i].size > 0 ==> ValidBlock(s, s.inodes[i].block))
    ensures Shaped(WithoutFile(s, i, k))
    ensures var nm := SlotName(s.dir, k);
            Represents(WithoutFile(s, i, k), a.(files := a.files - {nm}, handles := Detached(a.handles, nm)))
  {
    hide Inv, DirInv, TreeInv, BlockInv, HandleRange, IsFiles, IsHandles, Detached;
    InvParts(s);
    FileRemoved(s.dir, s.inodes, s.data, s.params.blockSize, a.files, k);
    HandlesDetached(s.dir, s.open, s.openTaken, a.handles, k);
  }

  lemma UnlinkIs(s: Fs, name: CString, i: nat, k: nat)
    requires Shaped(s) && ValidPathname(name) && ValidInumber(s, ROOT_DIR_INUM)
    requires FindInDir(s, s.inodes[ROOT_DIR_INUM], name[1..]) == Done(i) && i != ROOT_DIR_INUM
    requires SlotToClear(s.dir, name[1..]) == Done(k) && k < |s.dir|
    requires ValidInumber(s, i) && s.inodeTaken[i] && (s.inodes[i].size > 0 ==> ValidBlock(s, s.inodes[i].block))
    requires s.inodes[ROOT_DIR_INUM].kind == TDirectory && ValidBlock(s, s.inodes[ROOT_DIR_INUM].block)
    ensures TfsUnlink(s, name) == Done((WithoutFile(s, i, k), 0))
  {
  }

  lemma UnlinkFound(s: Fs, a: AFs, name: CString) returns (i: nat, k: nat)
    requires Inv(s) && Represents(s, a) && ValidPathname(name) && name[1..] in a.files
    ensures Used(s.dir, k) && s.dir[k].inumber == i && SlotName(s.dir, k) == name[1..]
    ensures i < |s.inodes| && i < |s.inodeTaken| && (s.inodes[i].size > 0 ==> ValidBlock(s, s.inodes[i].block))
    ensures TfsUnlink(s, name) == Done((WithoutFile(s, i, k), 0))
  {
    hide Represents, TfsUnlink, FindInDir, SlotToClear, MatchingSlot, DirInv, IsFiles, IsHandles;
    InvParts(s);
    RootReady(s);
    var j, n := Found(s, a, name[1..]);
    i, k := n, j;
    LookupAgrees(s, a, name[1..]);
    ClearsTheMatch(s.dir, name[1..]);
    BlockReleased(s.inodes, s.inodeTaken, s.blockTaken, s.params.blockSize, i, s.inodes, s.inodeTaken[i := false]);
    UnlinkIs(s, name, i, k);
  }

  // Unlinking a file takes its name, its inode and its block, whoever has it open.
  lemma UnlinkExisting(s: Fs, a: AFs, name: CString)
    requires Inv(s) && Represents(s, a) && ValidPathname(name) && name[1..] in a.files
    ensures Match(TfsUnlink(s, name), AUnlink(a, name)) && Inv(TfsUnlink(s, name).value.0)
  {
    hide Inv, Represents, TfsUnlink, WithoutFile, Used, SlotName, Live, Detached;
    var i, k := UnlinkFound(s, a, name);
    UnlinkInv(s, i, k);
    UnlinkAbstraction(s, a, i, k);
  }

  // tfs_unlink meets its documentation for every name.
  lemma UnlinkAgrees(s: Fs, a: AFs, name: CString)
    requires Inv(s) && Represents(s, a)
    ensures Match(TfsUnlink(s, name), AUnlink(a, name)) && Inv(TfsUnlink(s, name).value.0)
  {
    hide DirInv, TreeInv, BlockInv, HandleRange, IsFiles, IsHandles;
    if ValidPathname(name) {
      if name[1..] in a.files {
        UnlinkExisting(s, a, name);
      } else {
        NotFound(s, a, name[1..]);
      }
    }
  }
}
