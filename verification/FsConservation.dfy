// Counting: how many inodes, slots and blocks a state holds is determined by its
// names and its non-empty files, so each allocator fails exactly when the
// documented file system is full.
module FsConservation {
  import opened Prelude
  import opened Bytes
  import opened FsModel
  import opened FsAbstract
  import opened FsInvariant

  // names are the names in use.
  ghost predicate AreNames(dir: Dir, names: set<Name>) {
    forall nm :: nm in names <==> HasSlot(dir, nm)
  }

  lemma FileNames(s: Fs, a: AFs)
    requires Inv(s) && Represents(s, a)
    ensures AreNames(s.dir, a.files.Keys)
  {
    forall nm | HasSlot(s.dir, nm) ensures nm in a.files {
      var k :| Used(s.dir, k) && SlotName(s.dir, k) == nm;
    }
  }

  // Slots in use: one for each name, namely the one that carries it.
  lemma SlotsInUse(dir: Dir, names: set<Name>, used: set<nat>) returns (m: map<Name, nat>)
    requires DirInv(dir) && AreNames(dir, names)
    requires forall k: nat :: k in used <==> Used(dir, k)
    ensures Bijection(m, names, used) && |names| == |used|
    ensures forall nm :: nm in m ==> Used(dir, m[nm]) && SlotName(dir, m[nm]) == nm
  {
    m := map nm | nm in names :: SlotNamed(dir, nm);
    forall k | k in used ensures exists nm :: nm in m && m[nm] == k {
      assert HasSlot(dir, SlotName(dir, k));
      assert m[SlotName(dir, k)] == k;
    }
    BijectionCard(m, names, used);
  }

  lemma EmptySlotFound(dir: Dir, used: set<nat>)
    requires forall k: nat :: k in used <==> Used(dir, k)
    ensures EmptySlot(dir) < |dir| <==> |used| < |dir|
  {
    SubsetCard(used, UpTo(|dir|));
    var e := EmptySlot(dir);
    if e < |dir| {
      assert e in UpTo(|dir|) && e !in used;
    } else {
      assert used == UpTo(|dir|);
    }
  }

  // Live inodes other than the root: one for each name, namely the one in its slot.
  lemma LiveInodes(dir: Dir, inodes: Inodes, taken: seq<bool>, names: set<Name>, live: set<nat>)
    returns (m: map<Name, nat>)
    requires |inodes| == |taken| && DirInv(dir) && TreeInv(dir, inodes, taken)
    requires AreNames(dir, names) && forall i: nat :: i in live <==> LiveFile(taken, i)
    ensures Bijection(m, names, live) && |names| == |live|
    ensures forall nm :: nm in m ==> Links(dir, nm, m[nm])
  {
    m := map nm | nm in names :: dir[SlotNamed(dir, nm)].inumber;
    forall i | i in live ensures exists nm :: nm in m && m[nm] == i {
      assert LiveFile(taken, i);
      var nm := SlotName(dir, SlotOf(dir, i));
      assert HasSlot(dir, nm);
      assert m[nm] == i;
    }
    BijectionCard(m, names, live);
  }

  // TAKEN blocks other than the root's: one for each non-empty file, namely the
  // one its inode owns.
  lemma TakenBlocks(dir: Dir, inodes: Inodes, taken: seq<bool>, blockTaken: seq<bool>, bs: nat,
                    full: set<Name>, blocks: set<nat>)
    returns (m: map<Name, nat>)
    requires |inodes| == |taken| && DirInv(dir) && TreeInv(dir, inodes, taken)
    requires BlockInv(inodes, taken, blockTaken, bs)
    requires forall nm :: nm in full <==> HasSlot(dir, nm) && inodes[dir[SlotNamed(dir, nm)].inumber].size > 0
    requires forall b: nat :: b in blocks <==> b != 0 && Live(blockTaken, b)
    ensures Bijection(m, full, blocks) && |full| == |blocks|
    ensures forall nm :: nm in m ==> Owns(inodes, taken, dir[SlotNamed(dir, nm)].inumber, m[nm])
  {
    assert Owns(inodes, taken, ROOT_DIR_INUM, 0);
    forall nm | nm in full
      ensures Owns(inodes, taken, dir[SlotNamed(dir, nm)].inumber, inodes[dir[SlotNamed(dir, nm)].inumber].block)
    {
      assert Used(dir, SlotNamed(dir, nm));
    }
    m := map nm | nm in full :: inodes[dir[SlotNamed(dir, nm)].inumber].block;
    forall x, y | x in m && y in m && m[x] == m[y] ensures x == y {
      assert dir[SlotNamed(dir, x)].inumber == dir[SlotNamed(dir, y)].inumber;
    }
    forall b | b in blocks ensures exists nm :: nm in m && m[nm] == b {
      assert Owned(inodes, taken, b);
      var nm := OwnerNamed(dir, inodes, taken, b);
      assert m[nm] == b;
    }
    hide DirInv, TreeInv, BlockInv;
    BijectionCard(m, full, blocks);
  }

  // The name of the file that owns a block.
  lemma OwnerNamed(dir: Dir, inodes: Inodes, taken: seq<bool>, b: nat) returns (nm: Name)
    requires |inodes| == |taken| && DirInv(dir) && TreeInv(dir, inodes, taken)
    requires Owned(inodes, taken, b) && !Owns(inodes, taken, ROOT_DIR_INUM, b)
    ensures HasSlot(dir, nm) && 0 <= dir[SlotNamed(dir, nm)].inumber < |inodes|
    ensures var i := dir[SlotNamed(dir, nm)].inumber; inodes[i].size > 0 && inodes[i].block == b
  {
    var i :| Owns(inodes, taken, i, b);
    assert LiveFile(taken, i);
    nm := SlotName(dir, SlotOf(dir, i));
    assert HasSlot(dir, nm);
  }

  lemma NonEmptyFiles(s: Fs, a: AFs)
    requires Inv(s) && Represents(s, a)
    ensures forall nm :: nm in NonEmpty(a.files) <==>
              HasSlot(s.dir, nm) && s.inodes[s.dir[SlotNamed(s.dir, nm)].inumber].size > 0
  {
    FileNames(s, a);
    forall nm | HasSlot(s.dir, nm)
      ensures nm in a.files && (a.files[nm] != [] <==> s.inodes[s.dir[SlotNamed(s.dir, nm)].inumber].size > 0)
    {
      var k := SlotNamed(s.dir, nm);
      assert Used(s.dir, k);
      ContentSize(s, s.dir[k].inumber);
    }
  }

  lemma InodeCount(s: Fs, a: AFs)
    requires Inv(s) && Represents(s, a)
    ensures |TakenSet(s.inodeTaken)| == 1 + |a.files|
  {
    hide *;
    InvParts(s);
    FileNames(s, a);
    WithoutOne(TakenSet(s.inodeTaken), ROOT_DIR_INUM);
    var _ := LiveInodes(s.dir, s.inodes, s.inodeTaken, a.files.Keys, TakenSet(s.inodeTaken) - {ROOT_DIR_INUM});
    assert |a.files| == |a.files.Keys|;
  }

  lemma BlockCount(s: Fs, a: AFs)
    requires Inv(s) && Represents(s, a)
    ensures |TakenSet(s.blockTaken)| == 1 + |NonEmpty(a.files)|
  {
    hide *;
    InvParts(s);
    NonEmptyFiles(s, a);
    WithoutOne(TakenSet(s.blockTaken), 0);
    var _ := TakenBlocks(s.dir, s.inodes, s.inodeTaken, s.blockTaken, s.params.blockSize, NonEmpty(a.files),
                TakenSet(s.blockTaken) - {0});
  }

  ghost function UsedSlots(dir: Dir): (used: set<nat>)
    ensures forall k: nat :: k in used <==> Used(dir, k)
  {
    set k: nat | k < |dir| && Used(dir, k)
  }

  lemma DirInOrder(s: Fs)
    requires Inv(s)
    ensures DirInv(s.dir)
  {
  }

  lemma SlotCount(s: Fs, a: AFs)
    requires Inv(s) && Represents(s, a)
    ensures EmptySlot(s.dir) < |s.dir| <==> |a.files| < |s.dir|
  {
    hide *;
    DirInOrder(s);
    FileNames(s, a);
    var _ := SlotsInUse(s.dir, a.files.Keys, UsedSlots(s.dir));
    EmptySlotFound(s.dir, UsedSlots(s.dir));
    assert |a.files| == |a.files.Keys|;
  }

  // Conservation: the tables hold exactly what the names and their bytes need,
  // and a scan for an inode, a slot or a block fails exactly when there is none.
  lemma Conservation(s: Fs, a: AFs)
    requires Inv(s) && Represents(s, a)
    ensures |TakenSet(s.inodeTaken)| == 1 + |a.files|
    ensures |TakenSet(s.blockTaken)| == 1 + |NonEmpty(a.files)|
    ensures FirstFree(s.inodeTaken) < |s.inodeTaken| <==> 1 + |a.files| < s.params.maxInodes
    ensures FirstFree(s.blockTaken) < |s.blockTaken| <==> HasRoom(a)
    ensures EmptySlot(s.dir) < |s.dir| <==> |a.files| < s.params.MaxDirEntries()
  {
    InodeCount(s, a);
    BlockCount(s, a);
    SlotCount(s, a);
    FirstFreeFailsWhenFull(s.inodeTaken);
    FirstFreeFailsWhenFull(s.blockTaken);
  }
}
