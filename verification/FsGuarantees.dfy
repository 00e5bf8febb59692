// What callers of TecnicoFS may rely on.
module FsGuarantees {
  import opened Prelude
  import opened Bytes
  import opened FsModel
  import opened FsAbstract
  import opened FsInvariant
  import opened FsDirectory
  import opened FsConservation
  import opened FsRefinement
  import opened FsOpening
  import opened FsWriting
  import opened FsSimulation

  // ---- in every state that a run of proper calls reaches, on the raw tables ----

  // The tables after the run, starting from tfs_init on arbitrary memory.
  ghost predicate Reaches(junk: Fs, ops: seq<Op>, t: Fs)
    requires Shaped(junk)
  {
    && junk.params.maxInodes > 0 && junk.params.maxBlocks > 0
    && ProperRun(AFs(junk.params, map[], map[]), ops)
    && TfsInit(junk).Done? && Run(TfsInit(junk).value.0, ops).Done?
    && t == Run(TfsInit(junk).value.0, ops).value.0
  }

  lemma ReachedIsGood(junk: Fs, ops: seq<Op>, t: Fs)
    requires Shaped(junk) && Reaches(junk, ops, t)
    ensures Inv(t) && t.params == junk.params && Represents(t, ARun(AFs(junk.params, map[], map[]), ops).0)
    ensures DisciplinedRun(AFs(junk.params, map[], map[]), ops) ==> Tidy(t)
  {
    hide Inv, Represents, HandleInv, TfsInit, Run, ARun, ProperRun, DisciplinedRun;
    ReachableRun(junk, ops);
    InvShaped(t);
    RepresentsParams(t, ARun(AFs(junk.params, map[], map[]), ops).0);
    RunKeepsParams(AFs(junk.params, map[], map[]), ops);
  }

  lemma {:induction false} RunKeepsParams(a: AFs, ops: seq<Op>)
    ensures ARun(a, ops).0.params == a.params
    decreases |ops|
  {
    if ops != [] && Connected(a) {
      RunKeepsParams(AStep(a, ops[0]).0, ops[1..]);
    }
  }

  // No leak, no sharing and no double use: a block is TAKEN exactly when a live
  // inode with bytes has it as its block, and no two have the same; block 0 stays
  // the root directory's for good.
  lemma TakenIffOwnedOnce(junk: Fs, ops: seq<Op>, t: Fs, b: nat)
    requires Shaped(junk) && Reaches(junk, ops, t) && b < junk.params.maxBlocks
    ensures |t.blockTaken| == junk.params.maxBlocks && |t.inodes| == |t.inodeTaken| == junk.params.maxInodes
    ensures t.blockTaken[b] <==>
            exists i: nat :: i < |t.inodes| && t.inodeTaken[i] && t.inodes[i].size > 0 && t.inodes[i].block == b
    ensures forall i: nat, j: nat :: i < |t.inodes| && t.inodeTaken[i] && t.inodes[i].size > 0 &&
                                     j < |t.inodes| && t.inodeTaken[j] && t.inodes[j].size > 0 && i != j ==>
              t.inodes[i].block != t.inodes[j].block
    ensures t.inodeTaken[ROOT_DIR_INUM] && t.inodes[ROOT_DIR_INUM].block == 0 && t.blockTaken[0]
  {
    ReachedIsGood(junk, ops, t);
    hide Reaches, BlockInv, DirInv, TreeInv, HandleRange, Represents;
    OwnersApart(t.inodes, t.inodeTaken, t.blockTaken, t.params.blockSize, b);
  }

  lemma OwnersApart(inodes: Inodes, taken: seq<bool>, blockTaken: seq<bool>, bs: nat, b: nat)
    requires |inodes| == |taken| && BlockInv(inodes, taken, blockTaken, bs) && b < |blockTaken|
    ensures blockTaken[b] <==>
            exists i: nat :: i < |inodes| && taken[i] && inodes[i].size > 0 && inodes[i].block == b
    ensures forall i: nat, j: nat :: i < |inodes| && taken[i] && inodes[i].size > 0 &&
                                     j < |inodes| && taken[j] && inodes[j].size > 0 && i != j ==>
              inodes[i].block != inodes[j].block
    ensures ROOT_DIR_INUM < |inodes| && taken[ROOT_DIR_INUM] && inodes[ROOT_DIR_INUM].block == 0
    ensures |blockTaken| > 0 && blockTaken[0]
  {
    assert Owns(inodes, taken, ROOT_DIR_INUM, 0);
    if blockTaken[b] {
      assert Owned(inodes, taken, b);
      var i :| Owns(inodes, taken, i, b);
    }
    if i: nat :| i < |inodes| && taken[i] && inodes[i].size > 0 && inodes[i].block == b {
      assert Owns(inodes, taken, i, b);
    }
    forall i: nat, j: nat | i < |inodes| && taken[i] && inodes[i].size > 0 &&
                            j < |inodes| && taken[j] && inodes[j].size > 0 && i != j
      ensures inodes[i].block != inodes[j].block
    {
      assert Owns(inodes, taken, i, inodes[i].block);
      assert Owns(inodes, taken, j, inodes[j].block);
    }
  }

  // Names in use are distinct and of 1 to 39 characters, and slots in use and live
  // inodes other than the root correspond one to one.
  lemma NamesAndInodes(junk: Fs, ops: seq<Op>, t: Fs)
    requires Shaped(junk) && Reaches(junk, ops, t)
    ensures |t.inodes| == |t.inodeTaken|
    ensures forall k: nat :: k < |t.dir| && t.dir[k].inumber != -1 ==>
              && 1 <= |CStr(t.dir[k].name)| <= 39
              && 0 < t.dir[k].inumber < |t.inodes| && t.inodeTaken[t.dir[k].inumber]
    ensures forall j: nat, k: nat :: j < k < |t.dir| && t.dir[j].inumber != -1 && t.dir[k].inumber != -1 ==>
              CStr(t.dir[j].name) != CStr(t.dir[k].name) && t.dir[j].inumber != t.dir[k].inumber
    ensures forall i: nat :: 0 < i < |t.inodes| && t.inodeTaken[i] ==>
              exists k: nat :: k < |t.dir| && t.dir[k].inumber == i
  {
    ReachedIsGood(junk, ops, t);
    hide Reaches, BlockInv, HandleRange, Represents;
    SlotsApart(t.dir, t.inodes, t.inodeTaken);
  }

  lemma SlotsApart(dir: Dir, inodes: Inodes, taken: seq<bool>)
    requires |inodes| == |taken| && DirInv(dir) && TreeInv(dir, inodes, taken)
    ensures forall k: nat :: k < |dir| && dir[k].inumber != -1 ==>
              1 <= |CStr(dir[k].name)| <= 39 && 0 < dir[k].inumber < |inodes| && taken[dir[k].inumber]
    ensures forall j: nat, k: nat :: j < k < |dir| && dir[j].inumber != -1 && dir[k].inumber != -1 ==>
              CStr(dir[j].name) != CStr(dir[k].name) && dir[j].inumber != dir[k].inumber
    ensures forall i: nat :: 0 < i < |inodes| && taken[i] ==> exists k: nat :: k < |dir| && dir[k].inumber == i
  {
    forall k: nat | k < |dir| && dir[k].inumber != -1
      ensures 1 <= |CStr(dir[k].name)| <= 39 && LiveFile(taken, dir[k].inumber)
    {
      assert Used(dir, k) && SlotName(dir, k) == CStr(dir[k].name);
    }
    forall j: nat, k: nat | j < k < |dir| && dir[j].inumber != -1 && dir[k].inumber != -1
      ensures CStr(dir[j].name) != CStr(dir[k].name) && dir[j].inumber != dir[k].inumber
    {
      assert Used(dir, j) && Used(dir, k);
      assert SlotNamed(dir, SlotName(dir, j)) == j && SlotNamed(dir, SlotName(dir, k)) == k;
      assert SlotOf(dir, dir[j].inumber) == j && SlotOf(dir, dir[k].inumber) == k;
    }
    forall i: nat | 0 < i < |inodes| && taken[i] ensures exists k: nat :: k < |dir| && dir[k].inumber == i {
      assert LiveFile(taken, i) && Named(dir, i);
      var k :| Used(dir, k) && dir[k].inumber == i;
    }
  }

  // Under the discipline every live handle refers to a live file other than the
  // root, and offset <= file size <= block size.
  lemma HandlesInsideFiles(junk: Fs, ops: seq<Op>, t: Fs, h: nat)
    requires Shaped(junk) && Reaches(junk, ops, t) && DisciplinedRun(AFs(junk.params, map[], map[]), ops)
    requires h < junk.params.maxOpen
    ensures |t.open| == |t.openTaken| == junk.params.maxOpen && |t.inodes| == |t.inodeTaken|
    ensures t.openTaken[h] ==>
              var i := t.open[h].inumber;
              && 0 < i < |t.inodes| && t.inodeTaken[i] && t.inodes[i].kind == TFile
              && t.open[h].offset <= t.inodes[i].size <= junk.params.blockSize
  {
    ReachedIsGood(junk, ops, t);
    hide Reaches, DirInv, Represents, DisciplinedRun;
    assert t.openTaken[h] ==> Live(t.openTaken, h);
  }

  // ---- calls ----

  // What an open that found no free handle has done all the same.
  function OpenedWithoutHandle(a: AFs, name: CString, mode: Mode): AFs
    requires ValidPathname(name)
  {
    a.(files := a.files[name[1..] := if name[1..] in a.files && !mode.trunc then a.files[name[1..]] else []])
  }

  // Failure atomicity: whatever the call, proper or not, and whatever its arguments,
  // if it returns -1 it changed nothing, creation rolled back included, except an
  // open that found no free handle.
  lemma FailureAtomicity(s: Fs, a: AFs, op: Op)
    requires Inv(s) && Represents(s, a)
    ensures var r := Step(s, op);
            r.Done? && r.value.1 == Code(-1) ==>
              || Represents(r.value.0, a)
              || (&& op.Open? && ValidPathname(op.name)
                  && Represents(r.value.0, OpenedWithoutHandle(a, op.name, op.mode))
                  && forall h: nat :: h < s.params.maxOpen ==> h in a.handles)
  {
    hide Inv, Represents, Step;
    InvShaped(s);
    RepresentsParams(s, a);
    if op.Write? || op.Read? || op.Rewind? {
      TransferFailure(s, op);
    } else {
      StepExact(s, a, op);
      AlwaysProper(a, op);
      if Step(s, op).value.1 == Code(-1) {
        DocumentedFailure(a, op);
      }
    }
  }

  // A write, read or rewind that returns -1 has left all tables alone.
  lemma TransferFailure(s: Fs, op: Op)
    requires Shaped(s) && (op.Write? || op.Read? || op.Rewind?)
    ensures Step(s, op).Done? && Step(s, op).value.1 == Code(-1) ==> Step(s, op).value.0 == s
  {
    hide TfsOpen, TfsClose, TfsUnlink;
  }

  lemma DocumentedFailure(a: AFs, op: Op)
    requires Connected(a) && AStep(a, op).1 == Code(-1)
    ensures AStep(a, op).0 == a ||
            (op.Open? && ValidPathname(op.name) && AStep(a, op).0 == OpenedWithoutHandle(a, op.name, op.mode) &&
             forall h: nat :: h < a.params.maxOpen ==> h in a.handles)
  {
  }

  // The handle tables did not change, but for a handle h in the lowest free entry.
  predicate TookLowest(s: Fs, t: Fs, h: int) {
    && |t.open| == |t.openTaken| == |s.open| == |s.openTaken| && 0 <= h < |s.openTaken|
    && !s.openTaken[h] && t.openTaken[h] && (forall g :: 0 <= g < h ==> s.openTaken[g])
    && (forall g :: 0 <= g < |s.open| && g != h ==> t.open[g] == s.open[g] && t.openTaken[g] == s.openTaken[g])
  }

  // A new handle differs from every live one and leaves them as they were.
  lemma NewHandleIsNew(s: Fs, name: CString, mode: Mode)
    requires Inv(s)
    ensures var r := TfsOpen(s, name, mode);
            r.Done? && r.value.1 != -1 ==> TookLowest(s, r.value.0, r.value.1)
  {
    hide Inv, FindInDir, Truncate, InodeCreate, AddDirEntry, InodeDelete, AddToOpenFileTable, TookLowest;
    InvShaped(s);
    if ValidPathname(name) && ValidInumber(s, ROOT_DIR_INUM) {
      var found := FindInDir(s, s.inodes[ROOT_DIR_INUM], name[1..]);
      if found.Done? && found.value >= 0 {
        ExistingTookLowest(s, found.value, mode);
      } else if found.Done? && mode.creat {
        CreatedTookLowest(s, name[1..]);
      }
    }
  }

  lemma ExistingTookLowest(s: Fs, i: int, mode: Mode)
    requires Shaped(s)
    ensures ValidInumber(s, i) ==>
              var s1 := if mode.trunc then Truncate(s, i) else Done(s);
              s1.Done? ==>
                var (t, h) := AddToOpenFileTable(s1.value, i, if mode.append then s1.value.inodes[i].size else 0);
                h != -1 ==> TookLowest(s, t, h)
  {
  }

  lemma CreatedTookLowest(s: Fs, nm: Name)
    requires Shaped(s) && ValidInumber(s, ROOT_DIR_INUM)
    ensures var created := InodeCreate(s, TFile);
            created.Done? && created.value.1 != -1 ==>
              var (s1, i) := created.value;
              var r := AddDirEntry(s1, s1.inodes[ROOT_DIR_INUM], nm, i);
              r.Done? && r.value.1 != -1 ==>
                var (t, h) := AddToOpenFileTable(r.value.0, i, 0);
                h != -1 ==> TookLowest(s, t, h)
  {
  }

  // From a to b, handle h wrote buf: bytes [at, at + |buf|) of its own file are
  // buf's, and its other bytes, every other file and every other handle are kept.
  ghost predicate WroteOnly(a: AFs, b: AFs, h: int, buf: seq<byte>)
    requires Connected(a) && HasFile(a, h)
  {
    var nm, at := a.handles[h].file.value, a.handles[h].offset;
    && b.params == a.params && b.files.Keys == a.files.Keys && b.handles.Keys == a.handles.Keys
    && (forall other :: other in a.files && other != nm ==> b.files[other] == a.files[other])
    && (forall g :: g in a.handles && g != h ==> b.handles[g] == a.handles[g])
    && b.handles[h] == Handle(Some(nm), at + |buf|)
    && |b.files[nm]| == Max(|a.files[nm]|, if buf == [] then 0 else at + |buf|)
    && forall j :: 0 <= j < |b.files[nm]| ==>
         (at <= j < at + |buf| ==> b.files[nm][j] == buf[j - at])
         && (!(at <= j < at + |buf|) ==> j < |a.files[nm]| && b.files[nm][j] == a.files[nm][j])
  }

  // A proper write changes those bytes only, or fails and changes nothing.
  lemma WriteLocality(s: Fs, a: AFs, h: int, buf: seq<byte>)
    requires Inv(s) && Represents(s, a) && Connected(a) && HasFile(a, h) && Proper(a, Write(h, buf))
    ensures var r := Step(s, Write(h, buf));
            && r.Done? && Inv(r.value.0)
            && ((r.value.1 == Code(-1) && Represents(r.value.0, a))
                || (r.value.1 == Code(|buf|) &&
                    exists b :: Represents(r.value.0, b) && WroteOnly(a, b, h, buf)))
  {
    hide Inv, Step, Represents, WroteOnly, AWrite, Proper;
    StepExact(s, a, Write(h, buf));
    InvShaped(s);
    RepresentsParams(s, a);
    DocumentedLocality(a, h, buf);
  }

  lemma DocumentedLocality(a: AFs, h: int, buf: seq<byte>)
    requires Connected(a) && HasFile(a, h) && Proper(a, Write(h, buf)) && a.params.blockSize > 0
    ensures var (b, n) := AWrite(a, h, buf);
            (n == |buf| && WroteOnly(a, b, h, buf)) || (n == -1 && b == a)
  {
    if buf == [] {
      assert a.handles[h] == Handle(Some(a.handles[h].file.value), a.handles[h].offset);
    } else if FileOf(a, h) != [] || HasRoom(a) {
      hide AWrite, HasRoom;
      DocumentedWrite(a, h, buf);
    }
  }

  // Unlink gives back exactly what its file held: one inode, and one block if
  // the file had bytes.
  lemma UnlinkRestores(s: Fs, a: AFs, name: CString)
    requires Inv(s) && Represents(s, a) && ValidPathname(name) && name[1..] in a.files
    ensures var r := Step(s, Unlink(name));
            r.Done? && Inv(r.value.0) && r.value.1 == Code(0) &&
            var t := r.value.0;
            && |TakenSet(t.inodeTaken)| == |TakenSet(s.inodeTaken)| - 1
            && |TakenSet(t.blockTaken)| == |TakenSet(s.blockTaken)| - (if a.files[name[1..]] == [] then 0 else 1)
            && Represents(t, AUnlink(a, name).0)
  {
    hide Inv, Step, Represents, Connected, NonEmpty, Detached;
    InvShaped(s);
    StepExact(s, a, Unlink(name));
    AlwaysProper(a, Unlink(name));
    var t, b := Step(s, Unlink(name)).value.0, AUnlink(a, name).0;
    InodeCount(s, a);
    InodeCount(t, b);
    BlockCount(s, a);
    BlockCount(t, b);
    RemovedCount(a.files, name[1..]);
  }

  lemma RemovedCount(files: map<Name, seq<byte>>, nm: Name)
    requires nm in files
    ensures |files - {nm}| == |files| - 1
    ensures |NonEmpty(files - {nm})| == |NonEmpty(files)| - (if files[nm] == [] then 0 else 1)
  {
    assert (files - {nm}).Keys == files.Keys - {nm};
    assert |files.Keys| == |files| && |(files - {nm}).Keys| == |files - {nm}|;
    assert NonEmpty(files - {nm}) == NonEmpty(files) - {nm};
  }
}
