// TecnicoFS on values: one function per C function of fs/state.c and
// fs/operations.c, with the same branches, error returns and assertions. The
// class in Tfs.dfy changes its tables in place and is proved equal to these.
module FsModel {
  import opened Prelude
  import opened Bytes

  const MAX_FILE_NAME := 40
  const DIR_ENTRY_SIZE := 44 // 40 name bytes and a 4-byte inumber
  const ROOT_DIR_INUM := 0

  datatype Params = Params(maxInodes: nat, maxBlocks: nat, maxOpen: nat, blockSize: nat) {
    function MaxDirEntries(): nat {
      blockSize / DIR_ENTRY_SIZE
    }
  }

  datatype InodeType = TFile | TDirectory

  datatype Inode = Inode(kind: InodeType, size: nat, block: int)

  type Name = seq<byte>

  type NameBuf = s: seq<byte> | |s| == MAX_FILE_NAME witness Zeros(MAX_FILE_NAME)

  datatype DirEntry = DirEntry(name: NameBuf, inumber: int)

  datatype OpenFile = OpenFile(inumber: int, offset: nat)

  // All tables. `data` is the flat buffer that the blocks are cut from; `dir` is
  // the content of block 0, the root directory's block, as typed entries.
  // `locked` is g_library_mutex between two calls.
  datatype Fs = Fs(
    params: Params,
    inodes: seq<Inode>,
    inodeTaken: seq<bool>,
    data: seq<byte>,
    blockTaken: seq<bool>,
    dir: seq<DirEntry>,
    open: seq<OpenFile>,
    openTaken: seq<bool>,
    locked: bool)

  // The tables have the sizes that state_init gives them.
  ghost predicate Shaped(s: Fs) {
    && s.params.blockSize > 0
    && |s.inodes| == |s.inodeTaken| == s.params.maxInodes
    && |s.data| == s.params.maxBlocks * s.params.blockSize
    && |s.blockTaken| == s.params.maxBlocks
    && |s.dir| == s.params.MaxDirEntries()
    && |s.open| == |s.openTaken| == s.params.maxOpen
  }

  predicate ValidInumber(s: Fs, i: int) {
    0 <= i < |s.inodes|
  }

  predicate ValidBlock(s: Fs, b: int) {
    0 <= b < |s.blockTaken|
  }

  predicate ValidHandle(s: Fs, h: int) {
    0 <= h < |s.openTaken|
  }

  // ---- fs/state.c ----

  function InodeAlloc(s: Fs): (r: (Fs, int))
    requires Shaped(s)
    ensures Shaped(r.0)
    ensures r.1 != -1 ==> ValidInumber(r.0, r.1)
  {
    var i: int := FirstFree(s.inodeTaken);
    if i == |s.inodeTaken| then (s, -1) else (s.(inodeTaken := s.inodeTaken[i := true]), i)
  }

  function DataBlockAlloc(s: Fs): (r: (Fs, int))
    requires Shaped(s)
    ensures Shaped(r.0)
  {
    var b: int := FirstFree(s.blockTaken);
    if b == |s.blockTaken| then (s, -1) else (s.(blockTaken := s.blockTaken[b := true]), b)
  }

  function DataBlockFree(s: Fs, b: int): (r: Outcome<Fs>)
    requires Shaped(s)
    ensures r.Done? ==> Shaped(r.value)
  {
    if !ValidBlock(s, b) then Panic else Done(s.(blockTaken := s.blockTaken[b := false]))
  }

  // The directory branch is taken once, for the root, whose block is `dir`.
  function InodeCreate(s: Fs, kind: InodeType): (r: Outcome<(Fs, int)>)
    requires Shaped(s)
    ensures r.Done? ==> Shaped(r.value.0)
    ensures r.Done? && r.value.1 != -1 ==> ValidInumber(r.value.0, r.value.1)
  {
    var (s1, i) := InodeAlloc(s);
    if i == -1 then
      Done((s1, -1))
    else
      match kind
      case TFile =>
        Done((s1.(inodes := s1.inodes[i := Inode(TFile, 0, -1)]), i))
      case TDirectory =>
        var (s2, b) := DataBlockAlloc(s1);
        if b == -1 then
          var s3 :- InodeDelete(s2.(inodes := s2.inodes[i := Inode(TDirectory, 0, -1)]), i);
          Done((s3, -1))
        else
          Done((s2.(
                inodes := s2.inodes[i := Inode(TDirectory, s2.params.blockSize, b)],
                dir := Cleared(s2.dir)), i))
  }

  // Every entry is marked unused; the names keep whatever bytes they held.
  function Cleared(dir: seq<DirEntry>): seq<DirEntry> {
    seq(|dir|, k requires 0 <= k < |dir| => DirEntry(dir[k].name, -1))
  }

  function InodeDelete(s: Fs, i: int): (r: Outcome<Fs>)
    requires Shaped(s)
    ensures r.Done? ==> Shaped(r.value)
  {
    if !ValidInumber(s, i) || !s.inodeTaken[i] then
      Panic
    else
      var s1 :- if s.inodes[i].size > 0 then DataBlockFree(s, s.inodes[i].block) else Done(s);
      Done(s1.(inodeTaken := s1.inodeTaken[i := false]))
  }

  // strncmp(a, nm, MAX_FILE_NAME) == 0
  predicate SameName(a: NameBuf, nm: Name) {
    CStr(a) == if |nm| <= MAX_FILE_NAME then nm else nm[..MAX_FILE_NAME]
  }

  // strcmp(a, nm) == 0; a name that fills the buffer and agrees with nm so far
  // makes strcmp read on past the buffer.
  function StrCmpEqual(a: NameBuf, nm: Name): Outcome<bool> {
    if Terminated(a) then Done(CStr(a) == nm)
    else if a <= nm then Wild
    else Done(false)
  }

  // The first slot that find_in_dir would return, or |dir|.
  function MatchingSlot(dir: seq<DirEntry>, nm: Name): (k: nat)
    ensures k <= |dir|
    ensures k < |dir| ==> dir[k].inumber != -1 && SameName(dir[k].name, nm)
    ensures forall j :: 0 <= j < k ==> !(dir[j].inumber != -1 && SameName(dir[j].name, nm))
  {
    if dir == [] || (dir[0].inumber != -1 && SameName(dir[0].name, nm)) then 0
    else 1 + MatchingSlot(dir[1..], nm)
  }

  // The first slot that add_dir_entry would fill, or |dir|.
  function EmptySlot(dir: seq<DirEntry>): (k: nat)
    ensures k <= |dir|
    ensures k < |dir| ==> dir[k].inumber == -1
    ensures forall j :: 0 <= j < k ==> dir[j].inumber != -1
  {
    if dir == [] || dir[0].inumber == -1 then 0 else 1 + EmptySlot(dir[1..])
  }

  // The first slot that clear_dir_entry would clear, or |dir|; d_inumber is ignored.
  function SlotToClear(dir: seq<DirEntry>, nm: Name): (k: Outcome<nat>)
    ensures k.Done? ==> k.value <= |dir|
  {
    if dir == [] then Done(0)
    else
      var same :- StrCmpEqual(dir[0].name, nm);
      if same then Done(0)
      else
        var k :- SlotToClear(dir[1..], nm);
        Done(1 + k)
  }

  function FindInDir(s: Fs, root: Inode, nm: Name): Outcome<int> {
    if root.kind != TDirectory then Done(-1)
    else if !ValidBlock(s, root.block) then Panic
    else
      var k := MatchingSlot(s.dir, nm);
      Done(if k < |s.dir| then s.dir[k].inumber else -1)
  }

  function AddDirEntry(s: Fs, root: Inode, nm: Name, inumber: int): (r: Outcome<(Fs, int)>)
    requires Shaped(s)
    ensures r.Done? ==> Shaped(r.value.0)
  {
    if |nm| == 0 || |nm| > MAX_FILE_NAME - 1 then Done((s, -1))
    else if root.kind != TDirectory then Done((s, -1))
    else if !ValidBlock(s, root.block) then Panic
    else
      var k := EmptySlot(s.dir);
      if k == |s.dir| then Done((s, -1))
      else
        Done((s.(dir := s.dir[k := DirEntry(Padded(nm, MAX_FILE_NAME), inumber)]), 0))
  }

  function ClearDirEntry(s: Fs, root: Inode, nm: Name): (r: Outcome<(Fs, int)>)
    requires Shaped(s)
    ensures r.Done? ==> Shaped(r.value.0)
  {
    if root.kind != TDirectory then Done((s, -1))
    else if !ValidBlock(s, root.block) then Panic
    else
      var k :- SlotToClear(s.dir, nm);
      if k == |s.dir| then Done((s, -1))
      else Done((s.(dir := s.dir[k := DirEntry(Zeros(MAX_FILE_NAME), -1)]), 0))
  }

  function AddToOpenFileTable(s: Fs, inumber: int, offset: nat): (r: (Fs, int))
    requires Shaped(s)
    ensures Shaped(r.0)
  {
    var h: int := FirstFree(s.openTaken);
    if h == |s.openTaken| then (s, -1)
    else (s.(openTaken := s.openTaken[h := true], open := s.open[h := OpenFile(inumber, offset)]), h)
  }

  // ---- fs/operations.c ----

  datatype Mode = Mode(creat: bool, trunc: bool, append: bool)

  datatype Op =
    | Open(name: CString, mode: Mode)
    | Close(h: int)
    | Write(h: int, buf: seq<byte>)
    | Read(h: int, len: nat)
    | Rewind(h: int)
    | Unlink(name: CString)

  datatype Reply = Code(n: int) | Bytes(bytes: seq<byte>)

  predicate ValidPathname(name: CString) {
    |name| > 1 && name[0] == '/' as int as byte
  }

  predicate IsOpen(s: Fs, h: int) {
    ValidHandle(s, h) && s.openTaken[h]
  }

  function TfsOpen(s: Fs, name: CString, mode: Mode): (r: Outcome<(Fs, int)>)
    requires Shaped(s)
    ensures r.Done? ==> Shaped(r.value.0)
  {
    if !ValidPathname(name) then Done((s, -1))
    else if !ValidInumber(s, ROOT_DIR_INUM) then Panic
    else
      var root := s.inodes[ROOT_DIR_INUM];
      var inum :- FindInDir(s, root, name[1..]);
      if inum >= 0 then
        if !ValidInumber(s, inum) then Panic
        else
          var s1 :- if mode.trunc then Truncate(s, inum) else Done(s);
          Done(AddToOpenFileTable(s1, inum, if mode.append then s1.inodes[inum].size else 0))
      else if mode.creat then
        var created := InodeCreate(s, TFile);
        if !created.Done? then Panic
        else if created.value.1 == -1 then Done((created.value.0, -1))
        else
          var (s1, i) := created.value;
          var (s2, added) :- AddDirEntry(s1, s1.inodes[ROOT_DIR_INUM], name[1..], i);
          if added == -1 then
            var s3 :- InodeDelete(s2, i);
            Done((s3, -1))
          else
            Done(AddToOpenFileTable(s2, i, 0))
      else
        Done((s, -1))
  }

  function Truncate(s: Fs, i: int): (r: Outcome<Fs>)
    requires Shaped(s) && ValidInumber(s, i)
    ensures r.Done? ==> Shaped(r.value)
  {
    if s.inodes[i].size > 0 then
      var s1 :- DataBlockFree(s, s.inodes[i].block);
      Done(s1.(inodes := s1.inodes[i := s1.inodes[i].(size := 0)]))
    else
      Done(s)
  }

  function TfsClose(s: Fs, h: int): (r: (Fs, int))
    requires Shaped(s)
    ensures Shaped(r.0)
  {
    if !IsOpen(s, h) then (s, -1)
    else (s.(openTaken := s.openTaken[h := false]), 0)
  }

  // No clamp: the copy starts at the handle's offset in the file's block and
  // runs on into whatever follows in the flat buffer.
  function TfsWrite(s: Fs, h: int, buf: seq<byte>): (r: Outcome<(Fs, int)>)
    requires Shaped(s)
    ensures r.Done? ==> Shaped(r.value.0)
  {
    if !IsOpen(s, h) then Done((s, -1))
    else if !ValidInumber(s, s.open[h].inumber) then Panic
    else if |buf| == 0 then Done((s, 0))
    else
      var i := s.open[h].inumber;
      var (s1, b) := if s.inodes[i].size == 0 then DataBlockAlloc(s) else (s, s.inodes[i].block);
      if s.inodes[i].size == 0 && b == -1 then Done((s, -1))
      else if !ValidBlock(s1, b) then Panic
      else
        var end := s.open[h].offset + |buf|;
        if b * s.params.blockSize + end > |s.data| then Wild
        else
          Done((s1.(
                inodes := s1.inodes[i := s1.inodes[i].(block := b, size := Max(s1.inodes[i].size, end))],
                data := Splice(s1.data, b * s.params.blockSize + s.open[h].offset, buf),
                open := s1.open[h := OpenFile(i, end)]), |buf|))
  }

  function Max(a: nat, b: nat): nat {
    if a < b then b else a
  }

  // No clamp here either.
  function TfsRead(s: Fs, h: int, len: nat): (r: Outcome<(Fs, Option<seq<byte>>)>)
    requires Shaped(s)
    ensures r.Done? ==> Shaped(r.value.0)
  {
    if !IsOpen(s, h) then Done((s, None))
    else if !ValidInumber(s, s.open[h].inumber) then Panic
    else if len == 0 then Done((s, Some([])))
    else
      var i := s.open[h].inumber;
      var b := s.inodes[i].block;
      if !ValidBlock(s, b) then Panic
      else
        var pos := b * s.params.blockSize + s.open[h].offset;
        if pos + len > |s.data| then Wild
        else
          Done((s.(open := s.open[h := OpenFile(i, s.open[h].offset + len)]), Some(s.data[pos..pos + len])))
  }

  // At offset 0 the function returns without unlocking g_library_mutex.
  function TfsRewindOffset(s: Fs, h: int): (r: Outcome<(Fs, int)>)
    requires Shaped(s)
    ensures r.Done? ==> Shaped(r.value.0)
  {
    if !IsOpen(s, h) then Done((s, -1))
    else if !ValidInumber(s, s.open[h].inumber) then Panic
    else if s.open[h].offset == 0 then Done((s.(locked := true), 0))
    else Done((s.(open := s.open[h := s.open[h].(offset := 0)]), 0))
  }

  function TfsUnlink(s: Fs, name: CString): (r: Outcome<(Fs, int)>)
    requires Shaped(s)
    ensures r.Done? ==> Shaped(r.value.0)
  {
    if !ValidPathname(name) then Done((s, -1))
    else if !ValidInumber(s, ROOT_DIR_INUM) then Panic
    else
      var inum :- FindInDir(s, s.inodes[ROOT_DIR_INUM], name[1..]);
      if inum == -1 then Done((s, -1))
      else
        var s1 :- InodeDelete(s, inum);
        ClearDirEntry(s1, s1.inodes[ROOT_DIR_INUM], name[1..])
  }

  // One call: nothing runs while g_library_mutex is held.
  function Step(s: Fs, op: Op): (r: Outcome<(Fs, Reply)>)
    requires Shaped(s)
    ensures r.Done? ==> Shaped(r.value.0)
  {
    if s.locked then Blocked
    else
      match op
      case Open(name, mode) => var (t, n) :- TfsOpen(s, name, mode); Done((t, Code(n)))
      case Close(h) => var (t, n) := TfsClose(s, h); Done((t, Code(n)))
      case Write(h, buf) => var (t, n) :- TfsWrite(s, h, buf); Done((t, Code(n)))
      case Read(h, len) =>
        var (t, bytes) :- TfsRead(s, h, len);
        Done((t, if bytes.None? then Code(-1) else Bytes(bytes.value)))
      case Rewind(h) => var (t, n) :- TfsRewindOffset(s, h); Done((t, Code(n)))
      case Unlink(name) => var (t, n) :- TfsUnlink(s, name); Done((t, Code(n)))
  }

  // tfs_init after state_init has filled the allocation tables; the contents of
  // the malloc'ed tables are whatever `junk` holds.
  function TfsInit(junk: Fs): (r: Outcome<(Fs, int)>)
    requires Shaped(junk)
    ensures r.Done? ==> Shaped(r.value.0)
  {
    var (s, root) :- InodeCreate(StateInit(junk), TDirectory);
    Done((s, if root == ROOT_DIR_INUM then 0 else -1))
  }

  function StateInit(junk: Fs): (s: Fs)
    requires Shaped(junk)
    ensures Shaped(s)
  {
    junk.(
      inodeTaken := seq(|junk.inodeTaken|, _ => false),
      blockTaken := seq(|junk.blockTaken|, _ => false),
      openTaken := seq(|junk.openTaken|, _ => false),
      locked := false)
  }
}
