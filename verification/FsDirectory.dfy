// The root directory and the handle table: what the scanning functions find.
module FsDirectory {
  import opened Prelude
  import opened Bytes
  import opened FsModel
  import opened FsAbstract
  import opened FsInvariant

  // find_in_dir matches the one slot that carries the name, if there is one.
  lemma MatchIs(dir: Dir, nm: Name)
    requires DirInv(dir) && nm != []
    ensures MatchingSlot(dir, nm) < |dir| <==> HasSlot(dir, nm)
    ensures MatchingSlot(dir, nm) < |dir| ==>
              Used(dir, MatchingSlot(dir, nm)) && SlotName(dir, MatchingSlot(dir, nm)) == nm
  {
    var k := MatchingSlot(dir, nm);
    if k < |dir| {
      assert Used(dir, k);
    }
    if HasSlot(dir, nm) {
      var j :| Used(dir, j) && SlotName(dir, j) == nm;
      assert SameName(dir[j].name, nm);
    }
  }

  // tfs_lookup finds the inode in the slot of a name that is in use, and nothing
  // for other names.
  lemma LookupAgrees(s: Fs, a: AFs, nm: Name)
    requires Inv(s) && Represents(s, a) && nm != []
    ensures nm in a.files <==> HasSlot(s.dir, nm)
    ensures var k := MatchingSlot(s.dir, nm);
            FindInDir(s, s.inodes[ROOT_DIR_INUM], nm) == Done(if k < |s.dir| then s.dir[k].inumber else -1)
    ensures FindInDir(s, s.inodes[ROOT_DIR_INUM], nm).value != -1 <==> nm in a.files
    ensures nm in a.files ==> Links(s.dir, nm, FindInDir(s, s.inodes[ROOT_DIR_INUM], nm).value)
  {
    MatchIs(s.dir, nm);
    assert Owns(s.inodes, s.inodeTaken, ROOT_DIR_INUM, 0);
    if HasSlot(s.dir, nm) {
      var j :| Used(s.dir, j) && SlotName(s.dir, j) == nm;
      assert nm in a.files;
    }
  }

  // A scan that ignores d_inumber stops at slot k if everything before it is
  // readable and carries another name.
  lemma {:induction false} ClearStopsAt(dir: Dir, nm: Name, k: nat)
    requires k < |dir|
    requires forall j :: 0 <= j <= k ==> Terminated(dir[j].name)
    requires forall j :: 0 <= j < k ==> CStr(dir[j].name) != nm
    requires CStr(dir[k].name) == nm
    ensures SlotToClear(dir, nm) == Done(k)
  {
    if k == 0 {
    } else {
      ClearStopsAt(dir[1..], nm, k - 1);
    }
  }

  // clear_dir_entry clears exactly the slot that find_in_dir matched, although
  // it compares names in slots that may never have been initialised.
  lemma ClearsTheMatch(dir: Dir, nm: Name)
    requires DirInv(dir) && nm != [] && HasSlot(dir, nm)
    ensures SlotToClear(dir, nm) == Done(MatchingSlot(dir, nm))
  {
    MatchIs(dir, nm);
    var k := MatchingSlot(dir, nm);
    forall j | 0 <= j < k ensures CStr(dir[j].name) != nm {
      assert Clean(dir[j]);
      if Used(dir, j) {
        assert SlotName(dir, j) != SlotName(dir, k);
      }
    }
    forall j | 0 <= j <= k ensures Terminated(dir[j].name) {
      assert Clean(dir[j]);
    }
    ClearStopsAt(dir, nm, k);
  }

  // ---- handles ----

  lemma LowestFreeIs(live: set<nat>, n: nat, r: nat)
    requires r <= n && (r < n ==> r !in live) && forall j: nat :: j < r ==> j in live
    ensures LowestFree(live, n) == r
  {
  }

  lemma HandleAdded(dir: Dir, open: seq<OpenFile>, taken: seq<bool>, m: map<nat, Handle>, h: nat, k: int, offset: nat)
    requires |open| == |taken| && h < |taken| && !taken[h] && Used(dir, k)
    requires IsHandles(dir, open, taken, m)
    ensures IsHandles(dir, open[h := OpenFile(dir[k].inumber, offset)], taken[h := true],
                      m[h := Handle(Some(SlotName(dir, k)), offset)])
  {
    hide Links;
    var open', taken' := open[h := OpenFile(dir[k].inumber, offset)], taken[h := true];
    var m' := m[h := Handle(Some(SlotName(dir, k)), offset)];
    SlotLinks(dir, k);
    forall g: nat ensures g in m' <==> Live(taken', g) {
      assert g in m <==> Live(taken, g);
    }
    forall g: nat | g in m' && Live(taken', g)
      ensures m'[g].offset == open'[g].offset
      ensures m'[g].file.Some? ==> Links(dir, m'[g].file.value, open'[g].inumber)
    {
      assert g != h ==> Live(taken, g);
    }
  }

  lemma SlotLinks(dir: Dir, k: int)
    requires Used(dir, k)
    ensures Links(dir, SlotName(dir, k), dir[k].inumber)
  {
  }

  lemma HandleDropped(dir: Dir, open: seq<OpenFile>, taken: seq<bool>, m: map<nat, Handle>, h: nat)
    requires |open| == |taken| && h < |taken|
    requires IsHandles(dir, open, taken, m)
    ensures IsHandles(dir, open, taken[h := false], m - {h})
  {
    hide Links;
    forall g: nat ensures g in m - {h} <==> Live(taken[h := false], g) {
      assert g in m <==> Live(taken, g);
    }
    forall g: nat | g in m - {h} && Live(taken[h := false], g)
      ensures m[g].offset == open[g].offset && (m[g].file.Some? ==> Links(dir, m[g].file.value, open[g].inumber))
    {
      assert Live(taken, g);
    }
  }

  lemma HandleMoved(dir: Dir, open: seq<OpenFile>, taken: seq<bool>, m: map<nat, Handle>, h: nat, offset: nat)
    requires |open| == |taken| && Live(taken, h) && h in m
    requires IsHandles(dir, open, taken, m)
    ensures IsHandles(dir, open[h := open[h].(offset := offset)], taken, m[h := m[h].(offset := offset)])
  {
    hide Links;
  }

  // Moving one handle's offset changes nothing else.
  lemma OffsetMoved(s: Fs, a: AFs, h: int, offset: nat)
    requires Inv(s) && Represents(s, a) && IsOpen(s, h) && h in a.handles && offset <= s.params.blockSize
    ensures var t := s.(open := s.open[h := s.open[h].(offset := offset)]);
            Inv(t) && Represents(t, a.(handles := a.handles[h := a.handles[h].(offset := offset)]))
  {
    hide DirInv, BlockInv, TreeInv, IsFiles, IsHandles;
    assert Live(s.openTaken, h);
    HandleMoved(s.dir, s.open, s.openTaken, a.handles, h, offset);
  }

  // add_to_open_file_table hands out the lowest unused handle and leaves the
  // other handles alone.
  lemma AddHandleAgrees(s: Fs, a: AFs, k: int, offset: nat)
    requires Inv(s) && Represents(s, a)
    requires Used(s.dir, k) && offset <= s.params.blockSize
    ensures var (t, h) := AddToOpenFileTable(s, s.dir[k].inumber, offset);
            var (b, g) := AddHandle(a, SlotName(s.dir, k), offset);
            Inv(t) && Represents(t, b) && h == g
  {
    hide DirInv, BlockInv, TreeInv, IsFiles;
    var h := FirstFree(s.openTaken);
    assert forall g: nat :: g in a.handles <==> Live(s.openTaken, g);
    LowestFreeIs(a.handles.Keys, s.params.maxOpen, h);
    if h < |s.openTaken| {
      HandleAdded(s.dir, s.open, s.openTaken, a.handles, h, k, offset);
    }
  }

  lemma CloseAgrees(s: Fs, a: AFs, h: int)
    requires Inv(s) && Represents(s, a)
    ensures var (t, n) := TfsClose(s, h);
            var (b, m) := AClose(a, h);
            Inv(t) && Represents(t, b) && n == m
  {
    hide DirInv, BlockInv, TreeInv, IsFiles, Links;
    if IsOpen(s, h) {
      assert Live(s.openTaken, h);
      HandleDropped(s.dir, s.open, s.openTaken, a.handles, h);
    }
  }

  // What is known about a live handle that has a file.
  lemma HandleFacts(s: Fs, a: AFs, h: int) returns (k: int)
    requires Inv(s) && Represents(s, a) && Connected(a) && HasFile(a, h)
    ensures IsOpen(s, h) && Used(s.dir, k) && s.dir[k].inumber == s.open[h].inumber
    ensures 0 <= s.open[h].inumber < |s.inodes| && LiveFile(s.inodeTaken, s.open[h].inumber)
    ensures a.handles[h] == Handle(Some(SlotName(s.dir, k)), s.open[h].offset)
    ensures s.open[h].offset <= s.params.blockSize
    ensures var f := s.inodes[s.open[h].inumber];
            SlotName(s.dir, k) in a.files &&
            a.files[SlotName(s.dir, k)] == FileOf(a, h) == Content(f, s.data, s.params.blockSize) &&
            |Content(f, s.data, s.params.blockSize)| == f.size
  {
    hide DirInv, BlockInv, Content;
    assert Live(s.openTaken, h);
    var nm := a.handles[h].file.value;
    assert Links(s.dir, nm, s.open[h].inumber);
    k :| Used(s.dir, k) && SlotName(s.dir, k) == nm && s.dir[k].inumber == s.open[h].inumber;
    ContentSize(s, s.open[h].inumber);
  }

  lemma LiveHandles(s: Fs, a: AFs, h: int)
    requires Inv(s) && Represents(s, a)
    ensures h >= 0 && h in a.handles <==> IsOpen(s, h)
    ensures IsOpen(s, h) ==>
              a.handles[h].offset == s.open[h].offset <= s.params.blockSize && 0 <= s.open[h].inumber < |s.inodes|
  {
    assert h >= 0 ==> (h in a.handles <==> Live(s.openTaken, h));
  }
}
