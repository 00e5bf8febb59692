// tfs_open: opening, truncating and creating files, with the rollback of a
// creation that finds no directory slot.
module FsOpening {
  import opened Prelude
  import opened Bytes
  import opened FsModel
  import opened FsAbstract
  import opened FsInvariant
  import opened FsDirectory
  import opened FsBlocks
  import opened FsConservation
  import opened FsRefinement

  // ---- an existing file ----

  // The inode behind a name that is in use.
  lemma Found(s: Fs, a: AFs, nm: Name) returns (k: nat, i: int)
    requires Inv(s) && Represents(s, a) && nm != [] && nm in a.files
    ensures k == MatchingSlot(s.dir, nm) && Used(s.dir, k) && SlotName(s.dir, k) == nm && i == s.dir[k].inumber
    ensures ValidInumber(s, ROOT_DIR_INUM) && ValidInumber(s, i) && LiveFile(s.inodeTaken, i)
    ensures FindInDir(s, s.inodes[ROOT_DIR_INUM], nm) == Done(i)
    ensures a.files[nm] == Content(s.inodes[i], s.data, s.params.blockSize) && |a.files[nm]| == s.inodes[i].size
  {
    LookupAgrees(s, a, nm);
    MatchIs(s.dir, nm);
    k := MatchingSlot(s.dir, nm);
    i := s.dir[k].inumber;
    ContentSize(s, i);
  }

  lemma OpenExistingIs(s: Fs, name: CString, mode: Mode, i: int, t: Fs)
    requires Shaped(s) && ValidPathname(name) && ValidInumber(s, ROOT_DIR_INUM) && ValidInumber(s, i)
    requires FindInDir(s, s.inodes[ROOT_DIR_INUM], name[1..]) == Done(i)
    requires if mode.trunc then Truncate(s, i) == Done(t) else t == s
    ensures Shaped(t) && ValidInumber(t, i) &&
            TfsOpen(s, name, mode) == Done(AddToOpenFileTable(t, i, if mode.append then t.inodes[i].size else 0))
  {
  }

  lemma DocumentedOpen(a: AFs, name: CString, mode: Mode, b: AFs)
    requires ValidPathname(name) && name[1..] in a.files
    requires b == if mode.trunc then a.(files := a.files[name[1..] := []]) else a
    ensures AOpen(a, name, mode) == AddHandle(b, name[1..], if mode.append then |b.files[name[1..]]| else 0)
  {
    assert a.files[name[1..] := a.files[name[1..]]] == a.files;
  }

  // Opening an existing file; O_TRUNC empties it first.
  lemma OpenExistingAgrees(s: Fs, a: AFs, name: CString, mode: Mode)
    requires Inv(s) && Represents(s, a) && ValidPathname(name) && name[1..] in a.files
    ensures Match(TfsOpen(s, name, mode), AOpen(a, name, mode)) && Inv(TfsOpen(s, name, mode).value.0)
  {
    hide Inv, Represents, Used, SlotName, Content, LiveFile, Shaped, ValidPathname;
    hide FindInDir, Truncate, AddToOpenFileTable, AddHandle, TfsOpen, AOpen;
    InvParts(s);
    NameGiven(name);
    var k, i := Found(s, a, name[1..]);
    var t, b := s, a;
    if mode.trunc {
      TruncateAgrees(s, a, k);
      t, b := Truncate(s, i).value, a.(files := a.files[name[1..] := []]);
    }
    OpenExistingIs(s, name, mode, i, t);
    DocumentedOpen(a, name, mode, b);
    FileSize(t, k);
    AddHandleAgrees(t, b, k, if mode.append then t.inodes[i].size else 0);
  }

  lemma NameGiven(name: CString)
    requires ValidPathname(name)
    ensures name != [] && name[1..] != [] && NulFree(name[1..])
  {
  }

  lemma FileSize(t: Fs, k: int)
    requires Inv(t) && Used(t.dir, k)
    ensures 0 <= t.dir[k].inumber < |t.inodes| && t.inodes[t.dir[k].inumber].size <= t.params.blockSize
  {
    assert LiveFile(t.inodeTaken, t.dir[k].inumber);
  }

  // ---- a new file ----

  // The tables after inode_create(T_FILE) took inode i and add_dir_entry filled slot k.
  function WithFile(s: Fs, i: nat, k: nat, nm: Name): Fs
    requires i < |s.inodes| && i < |s.inodeTaken| && k < |s.dir| && |nm| <= MAX_FILE_NAME
  {
    s.(
    inodes := s.inodes[i := Inode(TFile, 0, -1)],
    inodeTaken := s.inodeTaken[i := true],
    dir := s.dir[k := DirEntry(Padded(nm, MAX_FILE_NAME), i)])
  }

  // A name written into the first empty slot keeps the directory in order.
  lemma SlotFilled(dir: Dir, k: nat, nm: Name, i: int)
    requires DirInv(dir) && NulFree(nm) && 1 <= |nm| < MAX_FILE_NAME && !HasSlot(dir, nm)
    requires k == EmptySlot(dir) < |dir| && i != -1 && !Named(dir, i)
    ensures DirInv(dir[k := DirEntry(Padded(nm, MAX_FILE_NAME), i)])
  {
    PaddedString(nm, MAX_FILE_NAME);
    var e := DirEntry(Padded(nm, MAX_FILE_NAME), i);
    hide HasSlot, Named, Padded;
    var dir' := dir[k := e];
    forall j | Used(dir', j)
      ensures 1 <= |SlotName(dir', j)| < MAX_FILE_NAME
      ensures SlotNamed(dir', SlotName(dir', j)) == j && SlotOf(dir', dir'[j].inumber) == j
    {
      FilledSlot(dir, k, e, j);
    }
    forall j | 0 <= j < UsedEnd(dir') ensures Clean(dir'[j]) {
      FilledClean(dir, k, e, j);
    }
  }

  lemma FilledSlot(dir: Dir, k: nat, e: DirEntry, j: int)
    requires DirInv(dir) && k < |dir| && !Used(dir, k) && 1 <= |CStr(e.name)| < MAX_FILE_NAME
    requires e.inumber != -1 && !HasSlot(dir, CStr(e.name)) && !Named(dir, e.inumber) && Used(dir[k := e], j)
    ensures 1 <= |SlotName(dir[k := e], j)| < MAX_FILE_NAME
    ensures SlotNamed(dir[k := e], SlotName(dir[k := e], j)) == j && SlotOf(dir[k := e], dir[k := e][j].inumber) == j
  {
    hide UsedEnd, CStr;
    var dir' := dir[k := e];
    assert forall j :: j != k ==> (Used(dir', j) <==> Used(dir, j));
    assert HasSlot(dir', SlotName(dir', j)) && Named(dir', dir'[j].inumber);
    var n := SlotNamed(dir', SlotName(dir', j));
    assert j != k ==> SlotName(dir, j) == SlotName(dir', j);
    assert n != k ==> SlotName(dir, n) == SlotName(dir', n);
  }

  lemma FilledClean(dir: Dir, k: nat, e: DirEntry, j: nat)
    requires forall i :: 0 <= i < UsedEnd(dir) ==> Clean(dir[i])
    requires k == EmptySlot(dir) < |dir| && Clean(e) && j < UsedEnd(dir[k := e])
    ensures Clean(dir[k := e][j])
  {
    hide Clean, UsedEnd, EmptySlot;
    var dir' := dir[k := e];
    if j < k {
      assert Used(dir, j);
    } else if j > k {
      assert Used(dir', UsedEnd(dir') - 1) && Used(dir, UsedEnd(dir') - 1);
    }
  }

  lemma FileLinked(dir: Dir, inodes: Inodes, taken: seq<bool>, k: nat, nm: Name, i: nat)
    requires |inodes| == |taken| && TreeInv(dir, inodes, taken)
    requires k < |dir| && !Used(dir, k) && 0 < i < |taken| && !taken[i] && |nm| <= MAX_FILE_NAME
    ensures TreeInv(dir[k := DirEntry(Padded(nm, MAX_FILE_NAME), i)],
                    inodes[i := Inode(TFile, 0, -1)], taken[i := true])
    ensures !Named(dir, i)
  {
    var dir' := dir[k := DirEntry(Padded(nm, MAX_FILE_NAME), i)];
    forall j | Used(dir', j) ensures LiveFile(taken[i := true], dir'[j].inumber) {
      assert j != k ==> Used(dir, j);
    }
    forall j | LiveFile(taken[i := true], j)
      ensures inodes[i := Inode(TFile, 0, -1)][j].kind == TFile && Named(dir', j)
    {
      if j == i {
        assert Used(dir', k) && dir'[k].inumber == i;
      } else {
        assert LiveFile(taken, j);
        var o := SlotOf(dir, j);
        assert Used(dir', o) && dir'[o].inumber == j;
      }
    }
  }

  // A slot that was not in use is filled.
  lemma SlotTaken(dir: Dir, dir': Dir, open: seq<OpenFile>, openTaken: seq<bool>, m: map<nat, Handle>, k: nat)
    requires |open| == |openTaken| && k < |dir| == |dir'| && IsHandles(dir, open, openTaken, m)
    requires !Used(dir, k) && forall j :: 0 <= j < |dir| && j != k ==> dir'[j] == dir[j]
    ensures IsHandles(dir', open, openTaken, m)
  {
    forall nm, i | Links(dir, nm, i) ensures Links(dir', nm, i) {
      var j :| Used(dir, j) && SlotName(dir, j) == nm && dir[j].inumber == i;
      assert Used(dir', j) && SlotName(dir', j) == nm && dir'[j].inumber == i;
    }
    hide Links;
  }

  lemma CreatedInv(s: Fs, i: nat, k: nat, nm: Name)
    requires Inv(s) && NulFree(nm) && 1 <= |nm| < MAX_FILE_NAME && !HasSlot(s.dir, nm)
    requires 0 < i < |s.inodes| && i < |s.inodeTaken| && !s.inodeTaken[i] && k == EmptySlot(s.dir) < |s.dir|
    ensures Inv(WithFile(s, i, k, nm))
  {
    InvParts(s);
    FileLinked(s.dir, s.inodes, s.inodeTaken, k, nm, i);
    SlotFilled(s.dir, k, nm, i);
    EmptyInodeAdded(s.inodes, s.inodeTaken, s.blockTaken, s.params.blockSize, i);
    hide DirInv, TreeInv, BlockInv, HandleRange, NulFree, HasSlot, Used, EmptySlot;
  }

  lemma CreatedAbstraction(s: Fs, a: AFs, i: nat, k: nat, nm: Name)
    requires Inv(s) && Represents(s, a)
    requires NulFree(nm) && 1 <= |nm| < MAX_FILE_NAME && !HasSlot(s.dir, nm)
    requires 0 < i < |s.inodes| && i < |s.inodeTaken| && !s.inodeTaken[i] && k < |s.dir| && !Used(s.dir, k)
    ensures Shaped(WithFile(s, i, k, nm)) && Represents(WithFile(s, i, k, nm), a.(files := a.files[nm := []]))
  {
    hide Inv, DirInv, TreeInv, BlockInv, HandleRange, NulFree, HasSlot, IsFiles, IsHandles, Padded;
    InvParts(s);
    FileLinked(s.dir, s.inodes, s.inodeTaken, k, nm, i);
    assert forall j :: Used(s.dir, j) ==> s.dir[j].inumber != i;
    FileAdded(s.dir, s.inodes, s.data, s.params.blockSize, a.files, k, nm, i);
    SlotTaken(s.dir, WithFile(s, i, k, nm).dir, s.open, s.openTaken, a.handles, k);
  }

  // A new, empty file under a new name.
  lemma CreateAgrees(s: Fs, a: AFs, nm: Name) returns (i: nat, k: nat)
    requires Inv(s) && Represents(s, a)
    requires NulFree(nm) && 1 <= |nm| < MAX_FILE_NAME && nm !in a.files
    requires FirstFree(s.inodeTaken) < |s.inodeTaken| && EmptySlot(s.dir) < |s.dir|
    ensures i == FirstFree(s.inodeTaken) && k == EmptySlot(s.dir)
    ensures 0 < i < |s.inodes| == |s.inodeTaken| && k < |s.dir|
    ensures var t := WithFile(s, i, k, nm);
            Inv(t) && Represents(t, a.(files := a.files[nm := []])) && Used(t.dir, k) && SlotName(t.dir, k) == nm
  {
    i, k := FirstFree(s.inodeTaken), EmptySlot(s.dir);
    InvParts(s);
    FileNames(s, a);
    PaddedString(nm, MAX_FILE_NAME);
    hide Inv, Represents, DirInv, TreeInv, BlockInv, HandleRange, NulFree, HasSlot;
    CreatedInv(s, i, k, nm);
    CreatedAbstraction(s, a, i, k, nm);
  }

  // ---- tfs_open for a name that is not in use ----

  // What remains of a creation that was rolled back: a scribble on a free inode.
  function Scribbled(s: Fs, i: nat): Fs
    requires i < |s.inodes|
  {
    s.(inodes := s.inodes[i := Inode(TFile, 0, -1)])
  }

  lemma ScribbleUnnoticed(s: Fs, a: AFs, i: nat)
    requires Inv(s) && Represents(s, a) && i < |s.inodes| && i < |s.inodeTaken| && !s.inodeTaken[i]
    ensures Inv(Scribbled(s, i)) && Represents(Scribbled(s, i), a)
  {
    hide BlockInv, IsHandles, IsFiles, DirInv;
    InvParts(s);
    ScribbleBlocks(s.inodes, s.inodeTaken, s.blockTaken, s.params.blockSize, i);
    ScribbleFiles(s.dir, s.inodes, s.inodeTaken, s.data, s.params.blockSize, i, a.files);
  }

  lemma ScribbleFiles(dir: Dir, inodes: Inodes, taken: seq<bool>, data: seq<byte>, bs: nat, i: nat,
                      m: map<Name, seq<byte>>)
    requires |inodes| == |taken| && TreeInv(dir, inodes, taken) && i < |taken| && !taken[i]
    requires IsFiles(dir, inodes, data, bs, m)
    ensures IsFiles(dir, inodes[i := Inode(TFile, 0, -1)], data, bs, m)
  {
    hide SlotName, HasSlot, Content, Named;
    forall k | Used(dir, k) ensures dir[k].inumber != i {
      assert LiveFile(taken, dir[k].inumber);
    }
  }

  lemma ScribbleBlocks(inodes: Inodes, taken: seq<bool>, blockTaken: seq<bool>, bs: nat, i: nat)
    requires |inodes| == |taken| && BlockInv(inodes, taken, blockTaken, bs) && i < |taken| && !taken[i]
    ensures BlockInv(inodes[i := Inode(TFile, 0, -1)], taken, blockTaken, bs)
  {
    var inodes' := inodes[i := Inode(TFile, 0, -1)];
    assert forall j, b :: Owns(inodes', taken, j, b) <==> Owns(inodes, taken, j, b);
    forall b | 0 <= b < |blockTaken| && blockTaken[b] ensures Owned(inodes', taken, b) {
      assert Owned(inodes, taken, b);
      var j :| Owns(inodes, taken, j, b);
      assert Owns(inodes', taken, j, b);
    }
  }

  lemma OpenNewIs(s: Fs, name: CString, mode: Mode)
    requires Shaped(s) && ValidPathname(name) && mode.creat
    requires ValidInumber(s, ROOT_DIR_INUM) && s.inodeTaken[ROOT_DIR_INUM]
    requires s.inodes[ROOT_DIR_INUM].kind == TDirectory && ValidBlock(s, s.inodes[ROOT_DIR_INUM].block)
    requires FindInDir(s, s.inodes[ROOT_DIR_INUM], name[1..]) == Done(-1)
    ensures var i, k := FirstFree(s.inodeTaken), EmptySlot(s.dir);
            TfsOpen(s, name, mode) ==
            if i == |s.inodeTaken| then Done((s, -1))
            else if |name[1..]| >= MAX_FILE_NAME || k == |s.dir| then Done((Scribbled(s, i), -1))
            else Done(AddToOpenFileTable(WithFile(s, i, k, name[1..]), i, 0))
  {
    var i := FirstFree(s.inodeTaken);
    if i < |s.inodeTaken| {
      assert s.inodeTaken[i := true][i := false] == s.inodeTaken;
    }
  }

  lemma RootReady(s: Fs)
    requires Inv(s)
    ensures ValidInumber(s, ROOT_DIR_INUM) && s.inodeTaken[ROOT_DIR_INUM]
    ensures s.inodes[ROOT_DIR_INUM].kind == TDirectory && ValidBlock(s, s.inodes[ROOT_DIR_INUM].block)
  {
    assert Owns(s.inodes, s.inodeTaken, ROOT_DIR_INUM, 0);
  }

  lemma NotFound(s: Fs, a: AFs, nm: Name)
    requires Inv(s) && Represents(s, a) && nm != [] && nm !in a.files
    ensures ValidInumber(s, ROOT_DIR_INUM) && FindInDir(s, s.inodes[ROOT_DIR_INUM], nm) == Done(-1)
  {
    LookupAgrees(s, a, nm);
    MatchIs(s.dir, nm);
    RootReady(s);
  }

  lemma DocumentedCreate(a: AFs, name: CString, mode: Mode)
    requires ValidPathname(name) && name[1..] !in a.files
    ensures AOpen(a, name, mode) ==
            if mode.creat && CanCreate(a, name[1..])
            then AddHandle(a.(files := a.files[name[1..] := []]), name[1..], 0) else (a, -1)
    ensures name[1..] != [] && NulFree(name[1..])
  {
  }

  // Creating a file, or failing to for want of an inode, a slot or a short name.
  lemma OpenNewAgrees(s: Fs, a: AFs, name: CString, mode: Mode)
    requires Inv(s) && Represents(s, a) && ValidPathname(name) && name[1..] !in a.files && mode.creat
    ensures Match(TfsOpen(s, name, mode), AOpen(a, name, mode)) && Inv(TfsOpen(s, name, mode).value.0)
  {
    var nm := name[1..];
    hide Inv, Represents, WithFile, Scribbled, NulFree, HasRoom, ValidPathname;
    hide FindInDir, TfsOpen, AOpen, AddToOpenFileTable, AddHandle;
    DocumentedCreate(a, name, mode);
    InvParts(s);
    RootReady(s);
    NotFound(s, a, nm);
    Conservation(s, a);
    OpenNewIs(s, name, mode);
    var i, k := FirstFree(s.inodeTaken), EmptySlot(s.dir);
    RepresentsParams(s, a);
    if i < |s.inodeTaken| {
      if |nm| >= MAX_FILE_NAME || k == |s.dir| {
        ScribbleUnnoticed(s, a, i);
      } else {
        i, k := CreateAgrees(s, a, nm);
        var t := WithFile(s, i, k, nm);
        InvParts(t);
        CreatedInode(s, i, k, nm);
        AddHandleAgrees(t, a.(files := a.files[nm := []]), k, 0);
      }
    }
  }

  lemma RepresentsParams(s: Fs, a: AFs)
    requires Shaped(s) && Represents(s, a)
    ensures a.params == s.params
  {
  }

  lemma CreatedInode(s: Fs, i: nat, k: nat, nm: Name)
    requires i < |s.inodes| && i < |s.inodeTaken| && k < |s.dir| && |nm| <= MAX_FILE_NAME
    ensures var t := WithFile(s, i, k, nm);
            |t.inodes| == |s.inodes| && |t.dir| == |s.dir| && t.dir[k].inumber == i && t.inodes[i].size == 0
  {
  }

  // tfs_open meets its documentation in every mode and for every name.
  lemma OpenAgrees(s: Fs, a: AFs, name: CString, mode: Mode)
    requires Inv(s) && Represents(s, a)
    ensures Match(TfsOpen(s, name, mode), AOpen(a, name, mode)) && Inv(TfsOpen(s, name, mode).value.0)
  {
    hide DirInv, TreeInv, BlockInv, HandleRange, IsFiles, IsHandles;
    if ValidPathname(name) {
      if name[1..] in a.files {
        OpenExistingAgrees(s, a, name, mode);
      } else if mode.creat {
        OpenNewAgrees(s, a, name, mode);
      } else {
        NotFound(s, a, name[1..]);
      }
    }
  }
}
