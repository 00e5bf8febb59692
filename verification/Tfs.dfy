// TecnicoFS in place: the tables of fs/state.c as arrays that the functions of
// fs/state.c and fs/operations.c scan and change, each proved to do what its
// value-level counterpart in FsModel says.
module Tfs {
  import opened Prelude
  import opened Bytes
  import M = FsModel

  type Inode = M.Inode
  type DirEntry = M.DirEntry
  type OpenFile = M.OpenFile
  type Fs = M.Fs
  type Name = M.Name

  // The call ends as the model says: same table contents and result, or the same
  // way of not returning.
  ghost predicate Ends<T>(model: Outcome<(Fs, T)>, now: Fs, r: Outcome<T>) {
    match model
    case Done((t, n)) => r == Done(n) && now == t
    case Panic => r == Panic
    case Wild => r == Wild
    case Blocked => r == Blocked
  }

  // ---- where scans stop ----

  lemma FirstFreeAt(taken: seq<bool>, i: nat)
    requires i <= |taken| && (forall j :: 0 <= j < i ==> taken[j]) && (i < |taken| ==> !taken[i])
    ensures FirstFree(taken) == i
  {
  }

  lemma MatchAt(dir: seq<DirEntry>, nm: Name, i: nat)
    requires i <= |dir|
    requires forall j :: 0 <= j < i ==> !(dir[j].inumber != -1 && M.SameName(dir[j].name, nm))
    requires i < |dir| ==> dir[i].inumber != -1 && M.SameName(dir[i].name, nm)
    ensures M.MatchingSlot(dir, nm) == i
  {
  }

  lemma EmptyAt(dir: seq<DirEntry>, i: nat)
    requires i <= |dir| && (forall j :: 0 <= j < i ==> dir[j].inumber != -1)
    requires i < |dir| ==> dir[i].inumber == -1
    ensures M.EmptySlot(dir) == i
  {
  }

  // The result of a scan that has passed i slots already.
  function Shift(k: Outcome<nat>, i: nat): Outcome<nat> {
    if k.Done? then Done(k.value + i) else k
  }

  // One step of the scan of clear_dir_entry.
  lemma NextToClear(dir: seq<DirEntry>, nm: Name, i: nat)
    requires i < |dir|
    ensures Shift(M.SlotToClear(dir[i..], nm), i) ==
            var same :- M.StrCmpEqual(dir[i].name, nm);
            if same then Done(i) else Shift(M.SlotToClear(dir[i + 1..], nm), i + 1)
  {
    hide M.StrCmpEqual;
    assert dir[i..][1..] == dir[i + 1..];
  }

  // tfs_write finds the block first (state t) and copies afterwards.
  lemma WriteByPhases(s: Fs, t: Fs, h: nat, b: nat, buf: seq<byte>)
    requires M.Shaped(s) && M.IsOpen(s, h) && M.ValidInumber(s, s.open[h].inumber) && |buf| > 0
    requires b < |s.blockTaken|
    requires var i := s.open[h].inumber;
             if s.inodes[i].size > 0 then t == s && b == s.inodes[i].block
             else
               var (u, bnum) := M.DataBlockAlloc(s);
               b == bnum && t == u.(inodes := u.inodes[i := u.inodes[i].(block := b)])
    requires b * s.params.blockSize + s.open[h].offset + |buf| <= |s.data|
    ensures var i, end := t.open[h].inumber, t.open[h].offset + |buf|;
            M.TfsWrite(s, h, buf) ==
            Done((t.(
                  data := Splice(t.data, b * s.params.blockSize + t.open[h].offset, buf),
                  open := t.open[h := t.open[h].(offset := end)],
                  inodes := t.inodes[i := t.inodes[i].(size := M.Max(t.inodes[i].size, end))]), |buf|))
  {
    var i, end := s.open[h].inumber, s.open[h].offset + |buf|;
    assert t.inodes[i := t.inodes[i].(size := M.Max(t.inodes[i].size, end))] ==
           s.inodes[i := s.inodes[i].(block := b, size := M.Max(s.inodes[i].size, end))];
  }

  class Tfs {
    const params: M.Params
    const inodeTable: array<Inode>
    const inodeTaken: array<bool>
    const fsData: array<byte>
    const blockTaken: array<bool>
    const rootDir: array<DirEntry>
    const openFileTable: array<OpenFile>
    const openTaken: array<bool>
    var locked: bool

    ghost predicate Valid() {
      && params.blockSize > 0
      && inodeTable.Length == inodeTaken.Length == params.maxInodes
      && fsData.Length == params.maxBlocks * params.blockSize
      && blockTaken.Length == params.maxBlocks
      && rootDir.Length == params.MaxDirEntries()
      && openFileTable.Length == openTaken.Length == params.maxOpen
      && inodeTaken != blockTaken && inodeTaken != openTaken && blockTaken != openTaken
    }

    ghost function Repr(): set<object> {
      {this, inodeTable, inodeTaken, fsData, blockTaken, rootDir, openFileTable, openTaken}
    }

    // The tables without the mutex.
    ghost function Tables(): (s: Fs)
      reads Repr()
    {
      M.Fs(params, inodeTable[..], inodeTaken[..], fsData[..], blockTaken[..], rootDir[..],
           openFileTable[..], openTaken[..], false)
    }

    ghost function State(): (s: Fs)
      reads Repr()
      requires Valid()
      ensures M.Shaped(s)
    {
      Tables().(locked := locked)
    }

    // state_init: every allocation entry FREE, everything else as malloc left it.
    constructor StateInit(params: M.Params)
      requires params.blockSize > 0
      ensures Valid() && fresh(Repr()) && this.params == params
      ensures State() == M.StateInit(State())
    {
      this.params := params;
      inodeTable := new Inode[params.maxInodes];
      inodeTaken := new bool[params.maxInodes](_ => false);
      fsData := new byte[params.maxBlocks * params.blockSize];
      blockTaken := new bool[params.maxBlocks](_ => false);
      rootDir := new DirEntry[params.MaxDirEntries()];
      openFileTable := new OpenFile[params.maxOpen];
      openTaken := new bool[params.maxOpen](_ => false);
      locked := false;
    }

    // ---- fs/state.c ----

    method InodeAlloc() returns (inumber: int)
      requires Valid()
      modifies inodeTaken
      ensures (Tables(), inumber) == M.InodeAlloc(old(Tables()))
    {
      for i := 0 to inodeTaken.Length
        invariant forall j :: 0 <= j < i ==> inodeTaken[j]
        invariant inodeTaken[..] == old(inodeTaken[..])
      {
        if !inodeTaken[i] {
          FirstFreeAt(inodeTaken[..], i);
          inodeTaken[i] := true;
          assert inodeTaken[..] == old(inodeTaken[..])[i := true];
          return i;
        }
      }
      FirstFreeAt(inodeTaken[..], inodeTaken.Length);
      return -1;
    }

    method DataBlockAlloc() returns (bnum: int)
      requires Valid()
      modifies blockTaken
      ensures (Tables(), bnum) == M.DataBlockAlloc(old(Tables()))
    {
      for i := 0 to blockTaken.Length
        invariant forall j :: 0 <= j < i ==> blockTaken[j]
        invariant blockTaken[..] == old(blockTaken[..])
      {
        if !blockTaken[i] {
          FirstFreeAt(blockTaken[..], i);
          blockTaken[i] := true;
          assert blockTaken[..] == old(blockTaken[..])[i := true];
          return i;
        }
      }
      FirstFreeAt(blockTaken[..], blockTaken.Length);
      return -1;
    }

    method DataBlockFree(bnum: int) returns (ok: bool)
      requires Valid()
      modifies blockTaken
      ensures ok <==> M.DataBlockFree(old(Tables()), bnum).Done?
      ensures ok ==> M.DataBlockFree(old(Tables()), bnum) == Done(Tables())
      ensures !ok ==> M.DataBlockFree(old(Tables()), bnum) == Panic
    {
      if bnum < 0 || bnum >= blockTaken.Length {
        return false;
      }
      blockTaken[bnum] := false;
      return true;
    }

    method InodeDelete(inumber: int) returns (ok: bool)
      requires Valid()
      modifies blockTaken, inodeTaken
      ensures ok ==> M.InodeDelete(old(Tables()), inumber) == Done(Tables())
      ensures !ok ==> M.InodeDelete(old(Tables()), inumber) == Panic
    {
      if inumber < 0 || inumber >= inodeTable.Length || !inodeTaken[inumber] {
        return false;
      }
      if inodeTable[inumber].size > 0 {
        var freed := DataBlockFree(inodeTable[inumber].block);
        if !freed {
          return false;
        }
      }
      inodeTaken[inumber] := false;
      return true;
    }

    method InodeCreateFile() returns (inumber: int)
      requires Valid()
      modifies inodeTaken, inodeTable
      ensures M.InodeCreate(old(Tables()), M.TFile) == Done((Tables(), inumber))
    {
      inumber := InodeAlloc();
      if inumber == -1 {
        return;
      }
      inodeTable[inumber] := M.Inode(M.TFile, 0, -1);
    }

    // The directory case of inode_create, used once for the root.
    method InodeCreateDirectory() returns (r: Outcome<int>)
      requires Valid()
      modifies inodeTaken, inodeTable, blockTaken, rootDir
      ensures Ends(M.InodeCreate(old(Tables()), M.TDirectory), Tables(), r)
    {
      var inumber := InodeAlloc();
      if inumber == -1 {
        return Done(-1);
      }
      var b := DataBlockAlloc();
      if b == -1 {
        inodeTable[inumber] := M.Inode(M.TDirectory, 0, -1);
        var deleted := InodeDelete(inumber);
        if !deleted {
          return Panic;
        }
        return Done(-1);
      }
      inodeTable[inumber] := M.Inode(M.TDirectory, params.blockSize, b);
      ghost var before := Tables();
      for i := 0 to rootDir.Length
        invariant Tables() == before.(dir := rootDir[..])
        invariant forall j :: 0 <= j < i ==> rootDir[j] == M.DirEntry(old(rootDir[j].name), -1)
        invariant forall j :: i <= j < rootDir.Length ==> rootDir[j] == old(rootDir[j])
      {
        rootDir[i] := M.DirEntry(rootDir[i].name, -1);
      }
      assert rootDir[..] == M.Cleared(before.dir);
      return Done(inumber);
    }

    method FindInDir(root: Inode, nm: Name) returns (r: Outcome<int>)
      requires Valid()
      ensures r == M.FindInDir(Tables(), root, nm)
    {
      if root.kind != M.TDirectory {
        return Done(-1);
      }
      if root.block < 0 || root.block >= blockTaken.Length {
        return Panic;
      }
      for i := 0 to rootDir.Length
        invariant forall j :: 0 <= j < i ==> !(rootDir[j].inumber != -1 && M.SameName(rootDir[j].name, nm))
      {
        if rootDir[i].inumber != -1 && M.SameName(rootDir[i].name, nm) {
          MatchAt(rootDir[..], nm, i);
          return Done(rootDir[i].inumber);
        }
      }
      MatchAt(rootDir[..], nm, rootDir.Length);
      return Done(-1);
    }

    method AddDirEntry(root: Inode, nm: Name, inumber: int) returns (r: Outcome<int>)
      requires Valid()
      modifies rootDir
      ensures Ends(M.AddDirEntry(old(Tables()), root, nm, inumber), Tables(), r)
    {
      if |nm| == 0 || |nm| > M.MAX_FILE_NAME - 1 || root.kind != M.TDirectory {
        return Done(-1);
      }
      if root.block < 0 || root.block >= blockTaken.Length {
        return Panic;
      }
      for i := 0 to rootDir.Length
        invariant forall j :: 0 <= j < i ==> rootDir[j].inumber != -1
        invariant rootDir[..] == old(rootDir[..])
      {
        if rootDir[i].inumber == -1 {
          EmptyAt(rootDir[..], i);
          rootDir[i] := M.DirEntry(Padded(nm, M.MAX_FILE_NAME), inumber);
          assert rootDir[..] == old(rootDir[..])[i := M.DirEntry(Padded(nm, M.MAX_FILE_NAME), inumber)];
          return Done(0);
        }
      }
      EmptyAt(rootDir[..], rootDir.Length);
      return Done(-1);
    }

    method ClearDirEntry(root: Inode, nm: Name) returns (r: Outcome<int>)
      requires Valid()
      modifies rootDir
      ensures Ends(M.ClearDirEntry(old(Tables()), root, nm), Tables(), r)
    {
      if root.kind != M.TDirectory {
        return Done(-1);
      }
      if root.block < 0 || root.block >= blockTaken.Length {
        return Panic;
      }
      ghost var dir := rootDir[..];
      for i := 0 to rootDir.Length
        invariant rootDir[..] == dir
        invariant M.SlotToClear(dir, nm) == Shift(M.SlotToClear(dir[i..], nm), i)
      {
        NextToClear(dir, nm, i);
        var same := M.StrCmpEqual(rootDir[i].name, nm);
        if !same.Done? {
          return Wild;
        }
        if same.value {
          rootDir[i] := M.DirEntry(Zeros(M.MAX_FILE_NAME), -1);
          assert rootDir[..] == dir[i := M.DirEntry(Zeros(M.MAX_FILE_NAME), -1)];
          return Done(0);
        }
      }
      return Done(-1);
    }

    method AddToOpenFileTable(inumber: int, offset: nat) returns (h: int)
      requires Valid()
      modifies openTaken, openFileTable
      ensures (Tables(), h) == M.AddToOpenFileTable(old(Tables()), inumber, offset)
    {
      for i := 0 to openTaken.Length
        invariant forall j :: 0 <= j < i ==> openTaken[j]
        invariant openTaken[..] == old(openTaken[..]) && openFileTable[..] == old(openFileTable[..])
      {
        if !openTaken[i] {
          FirstFreeAt(openTaken[..], i);
          openTaken[i] := true;
          openFileTable[i] := M.OpenFile(inumber, offset);
          assert openTaken[..] == old(openTaken[..])[i := true];
          return i;
        }
      }
      FirstFreeAt(openTaken[..], openTaken.Length);
      return -1;
    }

    // memcpy of buf into the flat buffer.
    method CopyIn(pos: nat, buf: seq<byte>)
      requires pos + |buf| <= fsData.Length
      modifies fsData
      ensures fsData[..] == Splice(old(fsData[..]), pos, buf)
    {
      for i := 0 to |buf|
        invariant forall j :: 0 <= j < i ==> fsData[pos + j] == buf[j]
        invariant forall j :: 0 <= j < fsData.Length && !(pos <= j < pos + i) ==> fsData[j] == old(fsData[j])
      {
        fsData[pos + i] := buf[i];
      }
    }

    // ---- fs/operations.c ----

    method TfsInit() returns (r: Outcome<int>)
      requires Valid() && State() == M.StateInit(State())
      modifies Repr()
      ensures Ends(M.TfsInit(old(State())), State(), r)
    {
      var root := InodeCreateDirectory();
      if !root.Done? {
        return root;
      }
      return Done(if root.value == M.ROOT_DIR_INUM then 0 else -1);
    }

    method TfsOpen(name: CString, mode: M.Mode) returns (r: Outcome<int>)
      requires Valid()
      modifies Repr()
      ensures Ends(if old(locked) then Blocked else M.TfsOpen(old(State()), name, mode), State(), r)
    {
      if locked {
        return Blocked;
      }
      locked := true;
      if !M.ValidPathname(name) {
        locked := false;
        return Done(-1);
      }
      if inodeTable.Length == 0 {
        return Panic;
      }
      var found := FindInDir(inodeTable[M.ROOT_DIR_INUM], name[1..]);
      if !found.Done? {
        return found;
      }
      var inum := found.value;
      var offset := 0;
      if inum >= 0 {
        if inum >= inodeTable.Length {
          return Panic;
        }
        if mode.trunc && inodeTable[inum].size > 0 {
          var freed := DataBlockFree(inodeTable[inum].block);
          if !freed {
            return Panic;
          }
          inodeTable[inum] := inodeTable[inum].(size := 0);
        }
        if mode.append {
          offset := inodeTable[inum].size;
        }
      } else if mode.creat {
        inum := InodeCreateFile();
        if inum == -1 {
          locked := false;
          return Done(-1);
        }
        var added := AddDirEntry(inodeTable[M.ROOT_DIR_INUM], name[1..], inum);
        if !added.Done? {
          return added;
        }
        if added.value == -1 {
          var deleted := InodeDelete(inum);
          if !deleted {
            return Panic;
          }
          locked := false;
          return Done(-1);
        }
      } else {
        locked := false;
        return Done(-1);
      }
      var h := AddToOpenFileTable(inum, offset);
      locked := false;
      return Done(h);
    }

    method TfsClose(h: int) returns (r: Outcome<int>)
      requires Valid()
      modifies Repr()
      ensures Ends(if old(locked) then Blocked else Done(M.TfsClose(old(State()), h)), State(), r)
    {
      if locked {
        return Blocked;
      }
      locked := true;
      if h < 0 || h >= openTaken.Length || !openTaken[h] {
        locked := false;
        return Done(-1);
      }
      openTaken[h] := false;
      locked := false;
      return Done(0);
    }

    // The beginning of tfs_write: an empty file gets a block, or -1.
    method FileBlock(i: nat) returns (b: int)
      requires Valid() && i < inodeTable.Length
      modifies blockTaken, inodeTable
      ensures var s := old(Tables());
              if s.inodes[i].size > 0 then Tables() == s && b == s.inodes[i].block
              else
                var (t, bnum) := M.DataBlockAlloc(s);
                b == bnum &&
                Tables() == if bnum == -1 then s else t.(inodes := t.inodes[i := t.inodes[i].(block := bnum)])
    {
      if inodeTable[i].size == 0 {
        b := DataBlockAlloc();
        if b == -1 {
          return;
        }
        inodeTable[i] := inodeTable[i].(block := b);
      }
      b := inodeTable[i].block;
    }

    // The end of tfs_write: copy, then advance the offset and the size.
    method Deposit(h: nat, i: nat, start: nat, buf: seq<byte>)
      requires Valid() && h < openFileTable.Length && i < inodeTable.Length
      requires start + openFileTable[h].offset + |buf| <= fsData.Length
      modifies fsData, openFileTable, inodeTable
      ensures var s := old(Tables());
              var end := s.open[h].offset + |buf|;
              Tables() == s.(
                data := Splice(s.data, start + s.open[h].offset, buf),
                open := s.open[h := s.open[h].(offset := end)],
                inodes := s.inodes[i := s.inodes[i].(size := M.Max(s.inodes[i].size, end))])
    {
      var at := openFileTable[h].offset;
      CopyIn(start + at, buf);
      openFileTable[h] := openFileTable[h].(offset := at + |buf|);
      if at + |buf| > inodeTable[i].size {
        inodeTable[i] := inodeTable[i].(size := at + |buf|);
      } else {
        assert inodeTable[..] == old(inodeTable[..])[i := inodeTable[i]];
      }
    }

    // tfs_write for a live handle and at least one byte.
    method WriteBytes(h: nat, buf: seq<byte>) returns (r: Outcome<int>)
      requires Valid() && h < openTaken.Length && openTaken[h] && |buf| > 0
      requires 0 <= openFileTable[h].inumber < inodeTable.Length
      modifies blockTaken, inodeTable, fsData, openFileTable
      ensures Ends(M.TfsWrite(old(Tables()), h, buf), Tables(), r)
    {
      var i := openFileTable[h].inumber;
      var empty := inodeTable[i].size == 0;
      var b := FileBlock(i);
      if empty && b == -1 {
        return Done(-1);
      }
      if b < 0 || b >= blockTaken.Length {
        return Panic;
      }
      var start := b * params.blockSize;
      if start + openFileTable[h].offset + |buf| > fsData.Length {
        return Wild;
      }
      ghost var t := Tables();
      Deposit(h, i, start, buf);
      WriteByPhases(old(Tables()), t, h, b, buf);
      return Done(|buf|);
    }

    method TfsWrite(h: int, buf: seq<byte>) returns (r: Outcome<int>)
      requires Valid()
      modifies Repr()
      ensures Ends(if old(locked) then Blocked else M.TfsWrite(old(State()), h, buf), State(), r)
    {
      if locked {
        return Blocked;
      }
      locked := true;
      if h < 0 || h >= openTaken.Length || !openTaken[h] {
        locked := false;
        return Done(-1);
      }
      if openFileTable[h].inumber < 0 || openFileTable[h].inumber >= inodeTable.Length {
        return Panic;
      }
      if |buf| == 0 {
        locked := false;
        return Done(0);
      }
      r := WriteBytes(h, buf);
      if r.Done? {
        locked := false;
      }
    }

    method TfsRead(h: int, len: nat) returns (r: Outcome<Option<seq<byte>>>)
      requires Valid()
      modifies Repr()
      ensures Ends(if old(locked) then Blocked else M.TfsRead(old(State()), h, len), State(), r)
    {
      if locked {
        return Blocked;
      }
      locked := true;
      if h < 0 || h >= openTaken.Length || !openTaken[h] {
        locked := false;
        return Done(None);
      }
      var i := openFileTable[h].inumber;
      if i < 0 || i >= inodeTable.Length {
        return Panic;
      }
      var buffer := [];
      if len > 0 {
        var b := inodeTable[i].block;
        if b < 0 || b >= blockTaken.Length {
          return Panic;
        }
        var pos := b * params.blockSize + openFileTable[h].offset;
        if pos + len > fsData.Length {
          return Wild;
        }
        buffer := fsData[pos..pos + len];
        openFileTable[h] := openFileTable[h].(offset := openFileTable[h].offset + len);
      }
      locked := false;
      return Done(Some(buffer));
    }

    method TfsRewindOffset(h: int) returns (r: Outcome<int>)
      requires Valid()
      modifies Repr()
      ensures Ends(if old(locked) then Blocked else M.TfsRewindOffset(old(State()), h), State(), r)
    {
      if locked {
        return Blocked;
      }
      locked := true;
      if h < 0 || h >= openTaken.Length || !openTaken[h] {
        locked := false;
        return Done(-1);
      }
      var i := openFileTable[h].inumber;
      if i < 0 || i >= inodeTable.Length {
        return Panic;
      }
      if openFileTable[h].offset == 0 {
        return Done(0); // still locked
      }
      openFileTable[h] := openFileTable[h].(offset := 0);
      locked := false;
      return Done(0);
    }

    method TfsUnlink(name: CString) returns (r: Outcome<int>)
      requires Valid()
      modifies Repr()
      ensures Ends(if old(locked) then Blocked else M.TfsUnlink(old(State()), name), State(), r)
    {
      if locked {
        return Blocked;
      }
      locked := true;
      if !M.ValidPathname(name) {
        locked := false;
        return Done(-1);
      }
      if inodeTable.Length == 0 {
        return Panic;
      }
      var found := FindInDir(inodeTable[M.ROOT_DIR_INUM], name[1..]);
      if !found.Done? {
        return found;
      }
      if found.value == -1 {
        locked := false;
        return Done(-1);
      }
      var deleted := InodeDelete(found.value);
      if !deleted {
        return Panic;
      }
      r := ClearDirEntry(inodeTable[M.ROOT_DIR_INUM], name[1..]);
      if r.Done? {
        locked := false;
      }
    }
  }
}
