// What every reachable state of the tables satisfies, and the abstract file
// system that such a state represents. Each predicate names only the tables it
// reads, so that a call that leaves them alone keeps it at once.
module FsInvariant {
  import opened Prelude
  import opened Bytes
  import opened FsModel
  import opened FsAbstract

  type Inodes = seq<Inode>
  type Dir = seq<DirEntry>

  // ---- directory ----

  ghost predicate Used(dir: Dir, k: int) {
    0 <= k < |dir| && dir[k].inumber != -1
  }

  ghost function SlotName(dir: Dir, k: int): Name
    requires 0 <= k < |dir|
  {
    CStr(dir[k].name)
  }

  ghost predicate HasSlot(dir: Dir, nm: Name) {
    exists k :: Used(dir, k) && SlotName(dir, k) == nm
  }

  ghost predicate Named(dir: Dir, i: int) {
    exists k :: Used(dir, k) && dir[k].inumber == i
  }

  // A slot that carries the name, and a slot that carries the inumber.
  ghost function SlotNamed(dir: Dir, nm: Name): (k: int)
    ensures HasSlot(dir, nm) ==> Used(dir, k) && SlotName(dir, k) == nm
  {
    if HasSlot(dir, nm) then var k :| Used(dir, k) && SlotName(dir, k) == nm; k else -1
  }

  ghost function SlotOf(dir: Dir, i: int): (k: int)
    ensures Named(dir, i) ==> Used(dir, k) && dir[k].inumber == i
  {
    if Named(dir, i) then var k :| Used(dir, k) && dir[k].inumber == i; k else -1
  }

  // A slot that strcmp can read, and that matches no name if it is not in use.
  ghost predicate Clean(e: DirEntry) {
    Terminated(e.name) && (e.inumber == -1 ==> CStr(e.name) == [])
  }

  // One past the last slot in use.
  ghost function UsedEnd(dir: Dir): (n: nat)
    ensures n <= |dir|
    ensures n > 0 ==> Used(dir, n - 1)
    ensures forall k :: Used(dir, k) ==> k < n
  {
    if dir == [] then 0
    else if Used(dir, |dir| - 1) then |dir|
    else
      assert forall k :: Used(dir, k) ==> Used(dir[..|dir| - 1], k);
      UsedEnd(dir[..|dir| - 1])
  }

  // Names have 1 to 39 characters; no two slots in use share a name or an
  // inumber; uninitialised names occur only behind the last slot in use.
  ghost predicate DirInv(dir: Dir) {
    && (forall k :: Used(dir, k) ==> 1 <= |SlotName(dir, k)| < MAX_FILE_NAME)
    && (forall k :: Used(dir, k) ==> SlotNamed(dir, SlotName(dir, k)) == k)
    && (forall k :: Used(dir, k) ==> SlotOf(dir, dir[k].inumber) == k)
    && (forall j :: 0 <= j < UsedEnd(dir) ==> Clean(dir[j]))
  }

  // ---- inodes ----

  ghost predicate Live(taken: seq<bool>, i: int) {
    0 <= i < |taken| && taken[i]
  }

  ghost predicate LiveFile(taken: seq<bool>, i: int) {
    i != ROOT_DIR_INUM && Live(taken, i)
  }

  // Slots in use and live files other than the root are in bijection.
  ghost predicate TreeInv(dir: Dir, inodes: Inodes, taken: seq<bool>)
    requires |inodes| == |taken|
  {
    && (forall k :: Used(dir, k) ==> LiveFile(taken, dir[k].inumber))
    && (forall i :: LiveFile(taken, i) ==> inodes[i].kind == TFile && Named(dir, i))
  }

  // ---- blocks ----

  // Inode i owns block b: it is live and has bytes in it.
  ghost predicate Owns(inodes: Inodes, taken: seq<bool>, i: int, b: int)
    requires |inodes| == |taken|
  {
    Live(taken, i) && inodes[i].size > 0 && inodes[i].block == b
  }

  ghost predicate Owned(inodes: Inodes, taken: seq<bool>, b: int)
    requires |inodes| == |taken|
  {
    exists i :: Owns(inodes, taken, i, b)
  }

  // A block is TAKEN exactly when one live inode owns it, and no two share it;
  // block 0 belongs to the root directory.
  ghost predicate BlockInv(inodes: Inodes, taken: seq<bool>, blockTaken: seq<bool>, bs: nat)
    requires |inodes| == |taken|
  {
    && Owns(inodes, taken, ROOT_DIR_INUM, 0) && inodes[ROOT_DIR_INUM].kind == TDirectory
    && (forall i :: Live(taken, i) ==> inodes[i].size <= bs)
    && (forall i, b :: Owns(inodes, taken, i, b) ==> 0 <= b < |blockTaken| && blockTaken[b])
    && (forall i, j, b :: Owns(inodes, taken, i, b) && Owns(inodes, taken, j, b) ==> i == j)
    && (forall b :: 0 <= b < |blockTaken| && blockTaken[b] ==> Owned(inodes, taken, b))
  }

  // ---- handles ----

  // Handles keep to numbers that exist and to one block; whether the inode is
  // still that of the file that was opened is not said.
  ghost predicate HandleRange(open: seq<OpenFile>, openTaken: seq<bool>, n: nat, bs: nat)
    requires |open| == |openTaken|
  {
    forall h :: Live(openTaken, h) ==> 0 <= open[h].inumber < n && open[h].offset <= bs
  }

  // No handle is stranded: each has a live file and stands inside it.
  ghost predicate HandleInv(inodes: Inodes, taken: seq<bool>, open: seq<OpenFile>, openTaken: seq<bool>)
    requires |inodes| == |taken| && |open| == |openTaken|
  {
    forall h :: Live(openTaken, h) ==>
      LiveFile(taken, open[h].inumber) && open[h].offset <= inodes[open[h].inumber].size
  }

  ghost predicate Inv(s: Fs) {
    && Shaped(s)
    && !s.locked
    && DirInv(s.dir)
    && TreeInv(s.dir, s.inodes, s.inodeTaken)
    && BlockInv(s.inodes, s.inodeTaken, s.blockTaken, s.params.blockSize)
    && HandleRange(s.open, s.openTaken, |s.inodes|, s.params.blockSize)
  }

  // A good state in which no handle is stranded.
  ghost predicate Tidy(s: Fs) {
    Inv(s) && HandleInv(s.inodes, s.inodeTaken, s.open, s.openTaken)
  }

  // ---- abstraction ----

  // The bytes of a file, cut from the flat buffer; Inv puts the cut inside it.
  ghost function Content(f: Inode, data: seq<byte>, bs: nat): seq<byte> {
    if f.size > 0 && 0 <= f.block * bs && f.block * bs + f.size <= |data|
    then data[f.block * bs..f.block * bs + f.size]
    else []
  }

  ghost predicate InodesInRange(dir: Dir, n: nat) {
    forall k :: Used(dir, k) ==> 0 <= dir[k].inumber < n
  }

  // m lists the content of every slot in use, and nothing else.
  ghost predicate IsFiles(dir: Dir, inodes: Inodes, data: seq<byte>, bs: nat, m: map<Name, seq<byte>>)
    requires InodesInRange(dir, |inodes|)
  {
    && (forall k :: Used(dir, k) ==>
          SlotName(dir, k) in m && m[SlotName(dir, k)] == Content(inodes[dir[k].inumber], data, bs))
    && (forall nm :: nm in m ==> HasSlot(dir, nm))
  }

  // The slot of that name carries that inumber.
  ghost predicate Links(dir: Dir, nm: Name, i: int) {
    exists k :: Used(dir, k) && SlotName(dir, k) == nm && dir[k].inumber == i
  }

  // m lists the live handles. A handle without a file may carry any inumber: its
  // inode may be free, or belong to another file by now.
  ghost predicate IsHandles(dir: Dir, open: seq<OpenFile>, openTaken: seq<bool>, m: map<nat, Handle>)
    requires |open| == |openTaken|
  {
    && (forall h: nat :: h in m <==> Live(openTaken, h))
    && (forall h: nat :: h in m && Live(openTaken, h) ==> m[h].offset == open[h].offset)
    && (forall h: nat :: h in m && Live(openTaken, h) && m[h].file.Some? ==>
          Links(dir, m[h].file.value, open[h].inumber))
  }

  ghost function Files(dir: Dir, inodes: Inodes, data: seq<byte>, bs: nat): (m: map<Name, seq<byte>>)
    requires DirInv(dir) && InodesInRange(dir, |inodes|)
    ensures IsFiles(dir, inodes, data, bs, m)
  {
    map k | 0 <= k < |dir| && Used(dir, k) :: SlotName(dir, k) := Content(inodes[dir[k].inumber], data, bs)
  }

  ghost function Handles(dir: Dir, open: seq<OpenFile>, taken: seq<bool>): (m: map<nat, Handle>)
    requires |open| == |taken| && DirInv(dir)
    requires forall h :: Live(taken, h) ==> Named(dir, open[h].inumber)
    ensures IsHandles(dir, open, taken, m) && forall h :: h in m ==> m[h].file.Some?
  {
    map h: nat | h < |taken| && Live(taken, h) ::
      Handle(Some(SlotName(dir, SlotOf(dir, open[h].inumber))), open[h].offset)
  }

  // State s stands for the documented file system a: the same files, the same
  // handles at the same offsets, and the mutex is free for the next call.
  ghost predicate Represents(s: Fs, a: AFs)
    requires Shaped(s)
  {
    && a.params == s.params && !s.locked
    && InodesInRange(s.dir, |s.inodes|)
    && IsFiles(s.dir, s.inodes, s.data, s.params.blockSize, a.files)
    && IsHandles(s.dir, s.open, s.openTaken, a.handles)
  }

  lemma RepresentsConnected(s: Fs, a: AFs)
    requires Shaped(s) && Represents(s, a)
    ensures Connected(a)
  {
    forall h | h in a.handles && a.handles[h].file.Some? ensures a.handles[h].file.value in a.files {
      assert Live(s.openTaken, h);
      assert Links(s.dir, a.handles[h].file.value, s.open[h].inumber);
    }
  }

  // What a tidy state stands for when every handle is taken to have a file.
  ghost function Abs(s: Fs): (a: AFs)
    requires Tidy(s)
    ensures Represents(s, a) && Connected(a) && NoneStranded(a)
  {
    AbsExists(s);
    var a :| Represents(s, a) && Connected(a) && NoneStranded(a);
    a
  }

  lemma AbsExists(s: Fs)
    requires Tidy(s)
    ensures exists a :: Represents(s, a) && Connected(a) && NoneStranded(a)
  {
    var a := AFs(s.params, Files(s.dir, s.inodes, s.data, s.params.blockSize), Handles(s.dir, s.open, s.openTaken));
    assert Represents(s, a);
    RepresentsConnected(s, a);
    TidyIsNotStranded(s, a);
  }

  // For a tidy state, handles that all have a file all stand inside it.
  lemma TidyIsNotStranded(s: Fs, a: AFs)
    requires Tidy(s) && Represents(s, a) && Connected(a) && forall h :: h in a.handles ==> a.handles[h].file.Some?
    ensures NoneStranded(a)
  {
    forall h: nat | h in a.handles ensures a.handles[h].offset <= |FileOf(a, h)| {
      assert Live(s.openTaken, h) && Links(s.dir, a.handles[h].file.value, s.open[h].inumber);
      ContentSize(s, s.open[h].inumber);
    }
  }

  // It is the only one.
  lemma AbsIs(s: Fs, a: AFs)
    requires Tidy(s) && Represents(s, a) && forall h :: h in a.handles ==> a.handles[h].file.Some?
    ensures Abs(s) == a
  {
    hide DirInv, TreeInv, BlockInv, HandleInv, HandleRange, IsFiles, IsHandles;
    SameFiles(s.dir, s.inodes, s.data, s.params.blockSize, Abs(s).files, a.files);
    SameHandles(s, Abs(s).handles, a.handles);
  }

  // At most one map lists every slot in use and nothing else.
  lemma SameFiles(dir: Dir, inodes: Inodes, data: seq<byte>, bs: nat,
                  f: map<Name, seq<byte>>, m: map<Name, seq<byte>>)
    requires InodesInRange(dir, |inodes|)
    requires IsFiles(dir, inodes, data, bs, f) && IsFiles(dir, inodes, data, bs, m)
    ensures f == m
  {
    forall nm | nm in m ensures nm in f && f[nm] == m[nm] {
      assert HasSlot(dir, nm);
    }
    forall nm | nm in f ensures nm in m {
      assert HasSlot(dir, nm);
    }
  }

  lemma SameHandles(s: Fs, f: map<nat, Handle>, m: map<nat, Handle>)
    requires Inv(s)
    requires IsHandles(s.dir, s.open, s.openTaken, f) && IsHandles(s.dir, s.open, s.openTaken, m)
    requires (forall h :: h in f ==> f[h].file.Some?) && forall h :: h in m ==> m[h].file.Some?
    ensures f == m
  {
    hide BlockInv, TreeInv;
    forall h | h in m ensures h in f && f[h] == m[h] {
      assert Live(s.openTaken, h);
      assert Links(s.dir, m[h].file.value, s.open[h].inumber) && Links(s.dir, f[h].file.value, s.open[h].inumber);
    }
  }

  lemma MulMono(x: int, y: int, n: nat)
    requires x <= y
    ensures x * n <= y * n
  {
  }

  lemma BlockFits(s: Fs, b: int)
    requires Shaped(s) && ValidBlock(s, b)
    ensures 0 <= b * s.params.blockSize <= b * s.params.blockSize + s.params.blockSize <= |s.data|
  {
    MulMono(0, b, s.params.blockSize);
    MulMono(b + 1, s.params.maxBlocks, s.params.blockSize);
  }

  // The length of a file's content is the size in its inode.
  lemma ContentSize(s: Fs, i: int)
    requires Inv(s) && Live(s.inodeTaken, i)
    ensures |Content(s.inodes[i], s.data, s.params.blockSize)| == s.inodes[i].size
  {
    if s.inodes[i].size > 0 {
      assert Owns(s.inodes, s.inodeTaken, i, s.inodes[i].block);
      BlockFits(s, s.inodes[i].block);
    }
  }

  lemma InvShaped(s: Fs)
    requires Inv(s)
    ensures Shaped(s) && !s.locked
  {
  }

  // The parts of Inv, for proofs that do not look inside them.
  lemma InvParts(s: Fs)
    requires Inv(s)
    ensures |s.inodes| == |s.inodeTaken| && |s.dir| == s.params.MaxDirEntries() && |s.open| == |s.openTaken|
    ensures |s.inodeTaken| == s.params.maxInodes && |s.blockTaken| == s.params.maxBlocks
    ensures Shaped(s) && !s.locked && InodesInRange(s.dir, |s.inodes|)
    ensures DirInv(s.dir) && TreeInv(s.dir, s.inodes, s.inodeTaken)
    ensures BlockInv(s.inodes, s.inodeTaken, s.blockTaken, s.params.blockSize)
    ensures HandleRange(s.open, s.openTaken, |s.inodes|, s.params.blockSize)
    ensures ROOT_DIR_INUM in TakenSet(s.inodeTaken) && 0 in TakenSet(s.blockTaken)
    ensures forall i: nat :: i in TakenSet(s.inodeTaken) - {ROOT_DIR_INUM} <==> LiveFile(s.inodeTaken, i)
    ensures forall b: nat :: b in TakenSet(s.blockTaken) - {0} <==> b != 0 && Live(s.blockTaken, b)
  {
    assert Owns(s.inodes, s.inodeTaken, ROOT_DIR_INUM, 0);
  }

  // ---- how the file map follows the tables ----

  // The file in slot k gets new content and every other file keeps its bytes.
  lemma FileReplaced(dir: Dir, inodes: Inodes, data: seq<byte>, inodes': Inodes, data': seq<byte>, bs: nat,
                     m: map<Name, seq<byte>>, k: int, c: seq<byte>)
    requires InodesInRange(dir, |inodes|) && |inodes'| == |inodes| && Used(dir, k)
    requires forall j :: Used(dir, j) && SlotName(dir, j) == SlotName(dir, k) ==> j == k
    requires IsFiles(dir, inodes, data, bs, m)
    requires Content(inodes'[dir[k].inumber], data', bs) == c
    requires forall j :: Used(dir, j) && j != k ==>
               Content(inodes'[dir[j].inumber], data', bs) == Content(inodes[dir[j].inumber], data, bs)
    ensures IsFiles(dir, inodes', data', bs, m[SlotName(dir, k) := c])
  {
  }

  lemma FileAdded(dir: Dir, inodes: Inodes, data: seq<byte>, bs: nat, m: map<Name, seq<byte>>,
                  k: int, nm: Name, i: int)
    requires InodesInRange(dir, |inodes|) && IsFiles(dir, inodes, data, bs, m)
    requires 0 <= k < |dir| && !Used(dir, k) && 0 <= i < |inodes|
    requires NulFree(nm) && |nm| < MAX_FILE_NAME && !HasSlot(dir, nm)
    requires forall j :: Used(dir, j) ==> dir[j].inumber != i
    ensures var dir' := dir[k := DirEntry(Padded(nm, MAX_FILE_NAME), i)];
            InodesInRange(dir', |inodes|) &&
            IsFiles(dir', inodes[i := Inode(TFile, 0, -1)], data, bs, m[nm := []])
  {
    PaddedString(nm, MAX_FILE_NAME);
    var dir' := dir[k := DirEntry(Padded(nm, MAX_FILE_NAME), i)];
    var inodes' := inodes[i := Inode(TFile, 0, -1)];
    forall j | Used(dir', j)
      ensures 0 <= dir'[j].inumber < |inodes|
      ensures SlotName(dir', j) in m[nm := []]
      ensures m[nm := []][SlotName(dir', j)] == Content(inodes'[dir'[j].inumber], data, bs)
    {
      if j != k {
        assert Used(dir, j) && SlotName(dir, j) != nm;
      }
    }
    forall n | n in m[nm := []] ensures HasSlot(dir', n) {
      if n == nm {
        assert Used(dir', k) && SlotName(dir', k) == nm;
      } else {
        assert HasSlot(dir, n);
        var j :| Used(dir, j) && SlotName(dir, j) == n;
        assert Used(dir', j) && SlotName(dir', j) == n;
      }
    }
  }

  lemma FileRemoved(dir: Dir, inodes: Inodes, data: seq<byte>, bs: nat, m: map<Name, seq<byte>>, k: int)
    requires InodesInRange(dir, |inodes|) && IsFiles(dir, inodes, data, bs, m) && DirInv(dir) && Used(dir, k)
    ensures var dir' := dir[k := DirEntry(Zeros(MAX_FILE_NAME), -1)];
            InodesInRange(dir', |inodes|) && IsFiles(dir', inodes, data, bs, m - {SlotName(dir, k)})
  {
    var dir' := dir[k := DirEntry(Zeros(MAX_FILE_NAME), -1)];
    var m' := m - {SlotName(dir, k)};
    forall j | Used(dir', j)
      ensures 0 <= dir'[j].inumber < |inodes|
      ensures SlotName(dir', j) in m' && m'[SlotName(dir', j)] == Content(inodes[dir'[j].inumber], data, bs)
    {
      assert Used(dir, j) && SlotName(dir', j) == SlotName(dir, j);
    }
    forall n | n in m' ensures HasSlot(dir', n) {
      assert HasSlot(dir, n);
      var j :| Used(dir, j) && SlotName(dir, j) == n;
      assert Used(dir', j) && SlotName(dir', j) == n;
    }
  }
}
