// The file system that fs/operations.h documents: names mapped to byte strings,
// handles with offsets, writes cut at the block size and reads at the file size.
// It has no inodes, blocks, directory slots or buffer. Of two things the header
// says nothing, and there this file has the project's own reading: a handle whose
// file was unlinked is an error to read or write, and a write behind the end of a
// file fills the gap with zeroes.
module FsAbstract {
  import opened Prelude
  import opened Bytes
  import opened FsModel

  // `file` is None once the file was unlinked.
  datatype Handle = Handle(file: Option<Name>, offset: nat)

  datatype AFs = AFs(params: Params, files: map<Name, seq<byte>>, handles: map<nat, Handle>)

  // The lowest number below n that is not a live handle, or n.
  function LowestFree(live: set<nat>, n: nat): (r: nat)
    ensures r <= n
    ensures r < n ==> r !in live
    ensures forall j: nat :: j < r ==> j in live
  {
    if n == 0 then 0
    else
      var r := LowestFree(live, n - 1);
      if r < n - 1 || n - 1 !in live then r else n
  }

  function NonEmpty(files: map<Name, seq<byte>>): set<Name> {
    set nm | nm in files && files[nm] != []
  }

  function AddHandle(a: AFs, nm: Name, offset: nat): (AFs, int) {
    var h: int := LowestFree(a.handles.Keys, a.params.maxOpen);
    if h == a.params.maxOpen then (a, -1)
    else (a.(handles := a.handles[h := Handle(Some(nm), offset)]), h)
  }

  predicate CanCreate(a: AFs, nm: Name) {
    && 1 <= |nm| < MAX_FILE_NAME
    && 1 + |a.files| < a.params.maxInodes
    && |a.files| < a.params.MaxDirEntries()
  }

  function AOpen(a: AFs, name: CString, mode: Mode): (AFs, int) {
    if !ValidPathname(name) then (a, -1)
    else
      var nm := name[1..];
      if nm in a.files then
        var c := if mode.trunc then [] else a.files[nm];
        AddHandle(a.(files := a.files[nm := c]), nm, if mode.append then |c| else 0)
      else if mode.creat && CanCreate(a, nm) then
        AddHandle(a.(files := a.files[nm := []]), nm, 0)
      else (a, -1)
  }

  function AClose(a: AFs, h: int): (AFs, int) {
    if h < 0 || h !in a.handles then (a, -1)
    else (a.(handles := a.handles - {h}), 0)
  }

  predicate HasRoom(a: AFs) {
    1 + |NonEmpty(a.files)| < a.params.maxBlocks
  }

  // c with src written at position pos, and zeroes between its end and pos.
  function Overwrite(c: seq<byte>, pos: nat, src: seq<byte>): seq<byte> {
    if pos <= |c| then c[..pos] + src + c[Min(pos + |src|, |c|)..]
    else c + Zeros(pos - |c|) + src
  }

  function Min(a: nat, b: nat): nat {
    if a < b then a else b
  }

  // Every handle that has a file names an existing one.
  predicate Connected(a: AFs) {
    forall h :: h in a.handles && a.handles[h].file.Some? ==> a.handles[h].file.value in a.files
  }

  // h is a live handle with a file.
  predicate HasFile(a: AFs, h: int) {
    h >= 0 && h in a.handles && a.handles[h].file.Some?
  }

  function FileOf(a: AFs, h: int): seq<byte>
    requires Connected(a) && HasFile(a, h)
  {
    a.files[a.handles[h].file.value]
  }

  function AWrite(a: AFs, h: int, buf: seq<byte>): (AFs, int)
    requires Connected(a)
  {
    if !HasFile(a, h) then (a, -1)
    else
      var nm, offset := a.handles[h].file.value, a.handles[h].offset;
      var n: int := Min(|buf|, if offset < a.params.blockSize then a.params.blockSize - offset else 0);
      if n == 0 then (a, 0)
      else if a.files[nm] == [] && !HasRoom(a) then (a, -1)
      else
        (a.(
         files := a.files[nm := Overwrite(a.files[nm], offset, buf[..n])],
         handles := a.handles[h := Handle(Some(nm), offset + n)]), n)
  }

  function ARead(a: AFs, h: int, len: nat): (AFs, Reply)
    requires Connected(a)
  {
    if !HasFile(a, h) then (a, Code(-1))
    else
      var nm, offset := a.handles[h].file.value, a.handles[h].offset;
      var c := a.files[nm];
      var n := Min(len, if offset < |c| then |c| - offset else 0);
      (a.(handles := a.handles[h := Handle(Some(nm), offset + n)]),
       Reply.Bytes(if n == 0 then [] else c[offset..offset + n]))
  }

  function ARewind(a: AFs, h: int): (AFs, int) {
    if h < 0 || h !in a.handles then (a, -1)
    else (a.(handles := a.handles[h := a.handles[h].(offset := 0)]), 0)
  }

  // The handles, once the file of that name is gone.
  function Detached(handles: map<nat, Handle>, nm: Name): map<nat, Handle> {
    map h | h in handles :: if handles[h].file == Some(nm) then handles[h].(file := None) else handles[h]
  }

  function AUnlink(a: AFs, name: CString): (AFs, int) {
    if !ValidPathname(name) || name[1..] !in a.files then (a, -1)
    else (a.(files := a.files - {name[1..]}, handles := Detached(a.handles, name[1..])), 0)
  }

  function AStep(a: AFs, op: Op): (AFs, Reply)
    requires Connected(a)
  {
    match op
    case Open(name, mode) => var (b, n) := AOpen(a, name, mode); (b, Code(n))
    case Close(h) => var (b, n) := AClose(a, h); (b, Code(n))
    case Write(h, buf) => var (b, n) := AWrite(a, h, buf); (b, Code(n))
    case Read(h, len) => ARead(a, h, len)
    case Rewind(h) => var (b, n) := ARewind(a, h); (b, Code(n))
    case Unlink(name) => var (b, n) := AUnlink(a, name); (b, Code(n))
  }

  // What makes a call safe, in terms of names, sizes and offsets only.
  //  - a write goes through a handle that has a file, stands inside it and ends
  //    inside one block (or fails anyway for want of a block);
  //  - a read goes through a handle that has a file and ends inside it;
  //  - a rewind is not done at offset 0.
  predicate Proper(a: AFs, op: Op)
    requires Connected(a)
  {
    match op
    case Write(h, buf) =>
      h >= 0 && h in a.handles ==>
        HasFile(a, h) && (buf == [] || (a.handles[h].offset <= |FileOf(a, h)| && Fitting(a, h, buf)))
    case Read(h, len) =>
      h >= 0 && h in a.handles ==> HasFile(a, h) && (len == 0 || a.handles[h].offset + len <= |FileOf(a, h)|)
    case Rewind(h) =>
      h >= 0 && h in a.handles ==> a.handles[h].offset > 0
    case _ => true
  }

  predicate Fitting(a: AFs, h: int, buf: seq<byte>)
    requires Connected(a) && HasFile(a, h)
  {
    a.handles[h].offset + |buf| <= a.params.blockSize || (FileOf(a, h) == [] && !HasRoom(a))
  }

  // Every handle has a file and stands inside it.
  predicate NoneStranded(a: AFs)
    requires Connected(a)
  {
    forall h: nat :: h in a.handles ==> HasFile(a, h) && a.handles[h].offset <= |FileOf(a, h)|
  }

  // The discipline: proper calls that strand no handle either.
  //  - a truncating open finds every handle of the file at offset 0;
  //  - an unlinked file has no open handle.
  ghost predicate Disciplined(a: AFs, op: Op)
    requires Connected(a)
  {
    && Proper(a, op)
    && match op
       case Open(name, mode) =>
         ValidPathname(name) && name[1..] in a.files && mode.trunc ==>
           forall h :: h in a.handles && a.handles[h].file == Some(name[1..]) ==> a.handles[h].offset == 0
       case Unlink(name) =>
         ValidPathname(name) && name[1..] in a.files ==>
           forall h :: h in a.handles ==> a.handles[h].file != Some(name[1..])
       case _ => true
  }
}
