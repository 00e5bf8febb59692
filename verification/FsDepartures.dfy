// What goes wrong on TecnicoFS without the discipline.
module FsDepartures {
  import opened Prelude
  import opened Bytes
  import opened FsModel
  import opened FsAbstract
  import opened FsInvariant
  import opened FsDirectory
  import opened FsRefinement
  import opened FsOpening
  import opened FsWriting
  import opened FsSimulation

  // ---- writes that hit the wrong bytes ----

  // A write that runs over the end of its block puts its excess at the beginning
  // of the next block: if that belongs to another file, exactly as many of that
  // file's first bytes are replaced, and the rest stay.
  lemma SpillOverwrites(s: Fs, h: int, buf: seq<byte>, j: int)
    requires Inv(s) && IsOpen(s, h) && LiveFile(s.inodeTaken, s.open[h].inumber)
    requires s.inodes[s.open[h].inumber].size > 0
    requires Live(s.inodeTaken, j) && s.inodes[j].size > 0
    requires s.inodes[j].block == s.inodes[s.open[h].inumber].block + 1
    requires s.open[h].offset + |buf| > s.params.blockSize && TfsWrite(s, h, buf).Done?
    ensures var t, room := TfsWrite(s, h, buf).value.0, s.params.blockSize - s.open[h].offset;
            var before := Content(s.inodes[j], s.data, s.params.blockSize);
            var after := Content(t.inodes[j], t.data, s.params.blockSize);
            && |after| == |before| == s.inodes[j].size && 0 <= room < |buf|
            && forall q :: 0 <= q < |after| ==>
                 after[q] == if q < |buf| - room then buf[room + q] else before[q]
  {
    hide DirInv, TreeInv;
    assert Live(s.openTaken, h);
    var i, bs := s.open[h].inumber, s.params.blockSize;
    assert Owns(s.inodes, s.inodeTaken, i, s.inodes[i].block);
    assert Owns(s.inodes, s.inodeTaken, j, s.inodes[j].block);
    BlockFits(s, s.inodes[j].block);
    assert s.inodes[j].block * bs == s.inodes[i].block * bs + bs;
    var t := TfsWrite(s, h, buf).value.0;
    assert t.inodes[j] == s.inodes[j];
    SpilledBytes(s.data, s.inodes[i].block * bs, bs, s.open[h].offset, buf, s.inodes[j].size);
  }

  lemma SpilledBytes(data: seq<byte>, p: nat, bs: nat, at: nat, buf: seq<byte>, size: nat)
    requires at <= bs < at + |buf| && p + at + |buf| <= |data| && p + bs + size <= |data|
    ensures var after := Splice(data, p + at, buf)[p + bs..p + bs + size];
            forall q :: 0 <= q < size ==>
              after[q] == if q < |buf| - (bs - at) then buf[bs - at + q] else data[p + bs..p + bs + size][q]
  {
  }

  // The inode behind a handle whose file was unlinked may belong to another file
  // by now. A write through the handle, which is read here as an error, then
  // succeeds and changes that file, which no reading would allow.
  lemma StaleWriteHits(s: Fs, a: AFs, h: int, buf: seq<byte>, nm: Name)
    requires Inv(s) && Represents(s, a) && Connected(a) && IsOpen(s, h) && !HasFile(a, h)
    requires buf != [] && s.open[h].offset + |buf| <= s.params.blockSize
    requires nm in a.files && Links(s.dir, nm, s.open[h].inumber) && (a.files[nm] != [] || HasRoom(a))
    ensures h in a.handles && AWrite(a, h, buf) == (a, -1)
    ensures exists t, c ::
              && TfsWrite(s, h, buf) == Done((t, |buf|)) && Inv(t)
              && s.open[h].offset + |buf| <= |c| && c[s.open[h].offset..s.open[h].offset + |buf|] == buf
              && Represents(t, a.(files := a.files[nm := c],
                                  handles := a.handles[h := Handle(None, s.open[h].offset + |buf|)]))
  {
    hide Inv, Represents, Links, NonEmpty, TfsWrite, Gap, Overwrite, Target;
    InvShaped(s);
    LiveHandles(s, a, h);
    RepresentsParams(s, a);
    var at := s.open[h].offset;
    var a' := a.(handles := a.handles[h := Handle(Some(nm), at)]);
    Adopted(s, a, h, nm);
    var t, b, c := WriteResult(s, a', h, buf);
    InvShaped(t);
    WrittenThere(a.files[nm], at, Gap(s, h, s.open[h].inumber, b), buf, c);
    var after := a.(files := a.files[nm := c]);
    assert after.handles[h := Handle(Some(nm), at + |buf|)] == a'.handles[h := Handle(Some(nm), at + |buf|)];
    Forgotten(t, after, h, Handle(Some(nm), at + |buf|));
  }

  // A handle may be taken to have the file that its inode belongs to now.
  lemma Adopted(s: Fs, a: AFs, h: nat, nm: Name)
    requires Inv(s) && Represents(s, a) && Connected(a) && IsOpen(s, h) && nm in a.files
    requires Links(s.dir, nm, s.open[h].inumber)
    ensures var b := a.(handles := a.handles[h := Handle(Some(nm), s.open[h].offset)]);
            Represents(s, b) && Connected(b)
  {
    hide DirInv, TreeInv, BlockInv, IsFiles, Links;
    LiveHandles(s, a, h);
  }

  lemma WrittenThere(file: seq<byte>, at: nat, gap: seq<byte>, buf: seq<byte>, c: seq<byte>)
    requires c == if at <= |file| then Overwrite(file, at, buf) else file + gap + buf
    requires at > |file| ==> |gap| == at - |file|
    ensures at + |buf| <= |c| && c[at..at + |buf|] == buf
  {
  }

  // Which file a handle has is the documentation's business only.
  lemma Forgotten(t: Fs, a: AFs, h: nat, handle: Handle)
    requires Shaped(t) && Represents(t, a.(handles := a.handles[h := handle])) && h in a.handles
    ensures Represents(t, a.(handles := a.handles[h := handle.(file := None)]))
  {
    hide IsFiles, Links;
  }

  const CREATE := Mode(true, false, false)
  const TRUNCATE := Mode(false, true, false)

  // The inode behind a handle that has a non-empty file.
  lemma FileBehind(s: Fs, a: AFs, h: int, name: CString) returns (i: nat)
    requires Inv(s) && Represents(s, a) && Connected(a) && HasFile(a, h)
    requires ValidPathname(name) && a.handles[h].file == Some(name[1..]) && FileOf(a, h) != []
    ensures IsOpen(s, h) && i == s.open[h].inumber && i < |s.inodes| && ValidInumber(s, ROOT_DIR_INUM)
    ensures |FileOf(a, h)| == s.inodes[i].size > 0 && ValidBlock(s, s.inodes[i].block)
    ensures FindInDir(s, s.inodes[ROOT_DIR_INUM], name[1..]) == Done(i)
    ensures a.handles[h].offset == s.open[h].offset && s.inodes[i].size <= s.params.blockSize
    ensures FileOf(a, h) == Content(s.inodes[i], s.data, s.params.blockSize)
  {
    hide TreeInv, HandleRange, IsFiles, IsHandles, Content, Represents;
    var k := HandleFacts(s, a, h);
    var j, n := Found(s, a, name[1..]);
    OneSlotPerName(s.dir, j);
    i := n;
    hide DirInv;
    assert Owns(s.inodes, s.inodeTaken, i, s.inodes[i].block);
  }

  // What a truncating open does to the tables under a handle of the same file.
  lemma TruncatedTables(s: Fs, h: int, name: CString, i: nat) returns (t: Fs)
    requires Shaped(s) && !s.locked && ValidPathname(name) && i < |s.inodes| && ValidInumber(s, ROOT_DIR_INUM)
    requires FindInDir(s, s.inodes[ROOT_DIR_INUM], name[1..]) == Done(i)
    requires s.inodes[i].size > 0 && ValidBlock(s, s.inodes[i].block) && IsOpen(s, h)
    ensures Step(s, Open(name, TRUNCATE)).Done? && t == Step(s, Open(name, TRUNCATE)).value.0
    ensures IsOpen(t, h) && |t.open| == |s.open| && t.open[h] == s.open[h]
    ensures t.data == s.data && |t.inodes| == |s.inodes| && t.params == s.params && t.inodes[i].size == 0
    ensures t.blockTaken == s.blockTaken[s.inodes[i].block := false]
  {
    hide FindInDir;
    OpenExistingIs(s, name, TRUNCATE, i, Truncate(s, i).value);
    t := Step(s, Open(name, TRUNCATE)).value.0;
  }

  // The documented effect of the same two calls.
  lemma DocumentedTruncation(a: AFs, h: int, name: CString, buf: seq<byte>) returns (b: AFs)
    requires Connected(a) && HasFile(a, h) && ValidPathname(name) && a.handles[h].file == Some(name[1..])
    requires buf != [] && 0 < a.handles[h].offset && a.handles[h].offset + |buf| <= a.params.blockSize
    ensures b == AOpen(a, name, TRUNCATE).0 && Connected(b) && b.params == a.params
    ensures HasFile(b, h) && b.handles[h] == a.handles[h] && FileOf(b, h) == []
    ensures HasRoom(b) ==> var (c, n) := AWrite(b, h, buf);
                           n == |buf| && name[1..] in c.files && c.files[name[1..]] == Zeros(a.handles[h].offset) + buf
  {
    b := AOpen(a, name, TRUNCATE).0;
    if HasRoom(b) {
      hide HasRoom;
      DocumentedWrite(b, h, buf);
      assert Overwrite([], a.handles[h].offset, buf) == Zeros(a.handles[h].offset) + buf;
    }
  }

  // Every block below that of the handle's file is TAKEN, so that the file gets
  // its own block again once it is freed.
  ghost predicate NoLowerBlock(s: Fs, h: int)
    requires Inv(s) && IsOpen(s, h)
  {
    assert Live(s.openTaken, h);
    forall x :: 0 <= x < |s.blockTaken| && x < s.inodes[s.open[h].inumber].block ==> s.blockTaken[x]
  }

  // The state after the truncation.
  lemma Truncated(s: Fs, a: AFs, h: int, name: CString) returns (i: nat, t: Fs, b: AFs)
    requires Inv(s) && Represents(s, a) && Connected(a) && HasFile(a, h) && IsOpen(s, h) && NoLowerBlock(s, h)
    requires ValidPathname(name) && a.handles[h].file == Some(name[1..])
    requires 0 < a.handles[h].offset <= |FileOf(a, h)| && a.handles[h].offset < a.params.blockSize
    ensures i == s.open[h].inumber && i < |s.inodes| == |t.inodes| && ValidBlock(s, s.inodes[i].block)
    ensures FileOf(a, h) == Content(s.inodes[i], s.data, s.params.blockSize)
    ensures 0 < s.open[h].offset <= s.inodes[i].size <= s.params.blockSize && a.handles[h].offset == s.open[h].offset
    ensures TfsOpen(s, name, TRUNCATE).Done? && t == TfsOpen(s, name, TRUNCATE).value.0 && Inv(t)
    ensures b == AOpen(a, name, TRUNCATE).0 && Represents(t, b) && Connected(b)
    ensures IsOpen(t, h) && |t.open| == |t.openTaken| && t.open[h] == s.open[h]
    ensures t.data == s.data && t.params == s.params == b.params && t.inodes[i].size == 0
    ensures HasFile(b, h) && b.handles[h] == a.handles[h] && FileOf(b, h) == []
    ensures FirstFree(t.blockTaken) == s.inodes[i].block && HasRoom(b)
  {
    hide Represents, AOpen, Content, HasRoom, FindInDir, ValidPathname, DirInv, TreeInv, BlockInv, HandleRange;
    RepresentsParams(s, a);
    i := FileBehind(s, a, h, name);
    t := TruncatedTables(s, h, name, i);
    OpenAgrees(s, a, name, TRUNCATE);
    b := DocumentedTruncation(a, h, name, [0]);
    FirstFreeIs(t.blockTaken, s.inodes[i].block);
    RoomIsBlock(t, b);
  }

  // Truncating a file and then writing through a handle that had moved into it
  // brings the old bytes back, if the file gets its old block again; zeroes are
  // documented.
  lemma TruncationLeaks(s: Fs, a: AFs, h: int, name: CString, buf: seq<byte>) returns (t: Fs, b: AFs, u: Fs, c: AFs)
    requires Inv(s) && Represents(s, a) && Connected(a) && HasFile(a, h) && IsOpen(s, h) && NoLowerBlock(s, h)
    requires ValidPathname(name) && a.handles[h].file == Some(name[1..])
    requires 0 < a.handles[h].offset <= |FileOf(a, h)| && buf != []
    requires a.handles[h].offset + |buf| <= a.params.blockSize
    ensures TfsOpen(s, name, TRUNCATE).Done? && t == TfsOpen(s, name, TRUNCATE).value.0 && Inv(t)
    ensures b == AOpen(a, name, TRUNCATE).0 && Represents(t, b) && Connected(b)
    ensures TfsWrite(t, h, buf) == Done((u, |buf|)) && Inv(u) && Represents(u, c) && name[1..] in c.files
    ensures c.files[name[1..]] == FileOf(a, h)[..a.handles[h].offset] + buf
    ensures var documented := AWrite(b, h, buf).0;
            name[1..] in documented.files && documented.files[name[1..]] == Zeros(a.handles[h].offset) + buf
  {
    hide Inv, Represents, AOpen, TfsOpen, AWrite, TfsWrite, Content, HasRoom, Gap, Overwrite, NoLowerBlock;
    InvShaped(s);
    var i;
    i, t, b := Truncated(s, a, h, name);
    var b' := DocumentedTruncation(a, h, name, buf);
    var y, z;
    u, y, z := WriteResult(t, b, h, buf);
    c := b.(files := b.files[name[1..] := z],
            handles := b.handles[h := b.handles[h].(offset := b.handles[h].offset + |buf|)]);
    LeakedBytes(s, t, h, i, y);
  }

  lemma FirstFreeIs(taken: seq<bool>, b: nat)
    requires b < |taken| && !taken[b] && forall x :: 0 <= x < b ==> taken[x]
    ensures FirstFree(taken) == b
  {
  }

  // The gap in the new block is the beginning of the old file.
  lemma LeakedBytes(s: Fs, t: Fs, h: int, i: nat, b: nat)
    requires Shaped(s) && i < |s.inodes| && b < |s.blockTaken| && b == s.inodes[i].block
    requires IsOpen(t, h) && |t.open| == |t.openTaken| && |t.inodes| == |s.inodes| && t.inodes[i].size == 0
    requires t.data == s.data && t.params == s.params && 0 < s.inodes[i].size <= s.params.blockSize
    requires 0 < t.open[h].offset <= s.inodes[i].size
    ensures t.open[h].offset <= |Content(s.inodes[i], s.data, s.params.blockSize)|
    ensures Gap(t, h, i, b) == Content(s.inodes[i], s.data, s.params.blockSize)[..t.open[h].offset]
  {
    BlockFits(s, b);
    var p := b * s.params.blockSize;
    assert s.data[p..p + s.inodes[i].size][..t.open[h].offset] == s.data[p..p + t.open[h].offset];
  }

  // ---- runs on which the code departs from its documentation ----

  const PATH_A: CString := [47, 97] // "/a"
  const PATH_B: CString := [47, 98] // "/b"
  const SMALL := Params(2, 2, 2, 44)

  // "/a" with that content, and handle 0 on it.
  function WithA(content: seq<byte>, offset: nat): AFs {
    AFs(SMALL, map[PATH_A[1..] := content], map[0 := Handle(Some(PATH_A[1..]), offset)])
  }

  // "/a" is gone but for handle 0, and "/b" is open as handle 1.
  function Reused(): AFs {
    AFs(SMALL, map[PATH_B[1..] := []], map[0 := Handle(None, 0), 1 := Handle(Some(PATH_B[1..]), 0)])
  }

  const CREATE_A := Open(PATH_A, CREATE)

  lemma CreateA(a: AFs)
    requires a == AFs(SMALL, map[], map[])
    ensures Connected(WithA([], 0)) && NonEmpty(WithA([], 0).files) == {}
    ensures AStep(a, CREATE_A).0 == WithA([], 0) && ARun(a, [CREATE_A]).0 == WithA([], 0)
  {
    assert [CREATE_A][1..] == [];
  }

  lemma {:induction false} ARunTwo(a: AFs, first: Op, rest: seq<Op>)
    requires Connected(a)
    ensures ARun(a, [first] + rest).0 == ARun(AStep(a, first).0, rest).0
  {
    hide AStep;
    assert ([first] + rest)[1..] == rest;
  }

  lemma UnlinkA()
    ensures Connected(WithA([], 0))
    ensures AStep(WithA([], 0), Unlink(PATH_A)).0 == AFs(SMALL, map[], map[0 := Handle(None, 0)])
  {
    assert WithA([], 0).files - {PATH_A[1..]} == map[];
    assert Detached(WithA([], 0).handles, PATH_A[1..]) == map[0 := Handle(None, 0)];
  }

  lemma OpenB(b: AFs)
    requires b == AFs(SMALL, map[], map[0 := Handle(None, 0)])
    ensures Connected(b) && AStep(b, Open(PATH_B, CREATE)).0 == Reused()
  {
    assert LowestFree({0}, 2) == 1;
    assert b.handles.Keys == {0};
  }

  lemma UnlinkAndReuse(a: AFs)
    requires a == AFs(SMALL, map[], map[])
    ensures ARun(a, [CREATE_A, Unlink(PATH_A), Open(PATH_B, CREATE)]).0 == Reused()
    ensures Connected(Reused()) && NonEmpty(Reused().files) == {}
  {
    hide AStep, Connected;
    CreateA(a);
    UnlinkA();
    var b := AFs(SMALL, map[], map[0 := Handle(None, 0)]);
    OpenB(b);
    assert Connected(a) && Connected(Reused()) by { EmptyConnected(a); }
    var last := [Open(PATH_B, CREATE)];
    assert [CREATE_A, Unlink(PATH_A), Open(PATH_B, CREATE)] == [CREATE_A] + ([Unlink(PATH_A)] + last);
    assert last == last + [];
    ARunTwo(a, CREATE_A, [Unlink(PATH_A)] + last);
    ARunTwo(WithA([], 0), Unlink(PATH_A), last);
    ARunTwo(b, Open(PATH_B, CREATE), []);
  }

  lemma EmptyConnected(a: AFs)
    requires a == AFs(SMALL, map[], map[])
    ensures Connected(a) && Connected(Reused())
  {
  }

  // A run does not agree if the documented state before its last call rules it out.
  lemma LastCallBreaks(s: Fs, a: AFs, ops: seq<Op>, last: Op, b: AFs, run: seq<Op>)
    requires Inv(s) && Represents(s, a) && ARun(a, ops).0 == b && run == ops + [last]
    requires Connected(b) && !Proper(b, last) && (last.Write? ==> NeverLucky(b, last.h))
    ensures !AgreesRun(s, a, run)
  {
    hide Inv, Represents, Step, AStep, Connected, Proper;
    InvShaped(s);
    if AgreesRun(s, a, run) {
      AgreesSplit(s, a, ops, last);
      var t := Run(s, ops).value.0;
      StepExact(t, b, last);
      if last.Write? {
        NeverLuckyIsNot(t, b, last.h, last.buf);
      }
    }
  }

  // No accident can make a write through this handle right.
  predicate NeverLucky(b: AFs, h: int)
    requires Connected(b)
  {
    if HasFile(b, h) then b.handles[h].offset <= |FileOf(b, h)| else HasRoom(b)
  }

  lemma NeverLuckyIsNot(t: Fs, b: AFs, h: int, buf: seq<byte>)
    requires Inv(t) && Connected(b) && NeverLucky(b, h)
    ensures !Lucky(t, b, h, buf)
  {
  }

  lemma {:induction false} AgreesSplit(s: Fs, a: AFs, ops: seq<Op>, last: Op)
    requires Inv(s) && Represents(s, a) && AgreesRun(s, a, ops + [last])
    ensures Shaped(s) && Run(s, ops).Done?
    ensures var t, b := Run(s, ops).value.0, ARun(a, ops).0;
            Inv(t) && Represents(t, b) && Connected(b) && Agrees(t, b, last)
    decreases |ops|
  {
    hide Inv, Represents, Step, AStep, Connected, Sound, Agrees;
    InvShaped(s);
    RepresentsConnected(s, a);
    var run := ops + [last];
    if ops == [] {
      assert run[0] == last;
    } else {
      assert run[0] == ops[0] && run[1..] == ops[1..] + [last];
      StepExact(s, a, ops[0]);
      assert Agrees(s, a, run[0]);
      StepAgreed(s, a, ops[0]);
      AgreesSplit(Step(s, ops[0]).value.0, AStep(a, ops[0]).0, ops[1..], last);
    }
  }

  lemma StepAgreed(s: Fs, a: AFs, op: Op)
    requires Shaped(s) && Connected(a) && Agrees(s, a, op)
    ensures Step(s, op).Done? && Represents(Step(s, op).value.0, AStep(a, op).0)
  {
  }

  lemma {:induction false} RunOneMore(s: Fs, ops: seq<Op>, op: Op)
    requires Shaped(s) && Run(s, ops).Done? && Step(Run(s, ops).value.0, op).Done?
    ensures Run(s, ops + [op]).Done? && Run(s, ops + [op]).value.0 == Step(Run(s, ops).value.0, op).value.0
    decreases |ops|
  {
    hide Step;
    var run := ops + [op];
    if ops == [] {
      assert run[0] == op && run[1..] == [];
    } else {
      assert run[0] == ops[0] && run[1..] == ops[1..] + [op];
      RunOneMore(Step(s, ops[0]).value.0, ops[1..], op);
    }
  }

  lemma WriteOneToA()
    ensures Connected(WithA([], 0)) && Proper(WithA([], 0), Write(0, [1]))
    ensures AStep(WithA([], 0), Write(0, [1])).0 == WithA([1], 1) && Connected(WithA([1], 1))
  {
    assert NonEmpty(WithA([], 0).files) == {};
    assert [1][..1] == [1] && Overwrite([], 0, [1]) == [1];
  }

  // With two blocks, a file that has bytes has the lowest block there is for it.
  lemma TwoBlocks(s: Fs, a: AFs, h: int)
    requires Inv(s) && Represents(s, a) && Connected(a) && HasFile(a, h) && FileOf(a, h) != []
    requires s.params == SMALL
    ensures IsOpen(s, h) && NoLowerBlock(s, h)
  {
    hide DirInv, TreeInv, IsFiles, IsHandles, Content, Represents;
    var k := HandleFacts(s, a, h);
    assert Owns(s.inodes, s.inodeTaken, ROOT_DIR_INUM, 0);
    assert Owns(s.inodes, s.inodeTaken, s.open[h].inumber, s.inodes[s.open[h].inumber].block);
  }

  // "/a" with one byte, written through handle 0.
  lemma OneByteInA(s: Fs) returns (t: Fs)
    requires Inv(s) && Represents(s, AFs(SMALL, map[], map[]))
    ensures Shaped(s) && Run(s, [CREATE_A, Write(0, [1])]).Done? && t == Run(s, [CREATE_A, Write(0, [1])]).value.0
    ensures Inv(t) && Represents(t, WithA([1], 1)) && t.params == SMALL
    ensures ARun(AFs(SMALL, map[], map[]), [CREATE_A, Write(0, [1])]).0 == WithA([1], 1)
    ensures Connected(WithA([1], 1))
  {
    hide Inv, Represents, AStep, Step, Connected, Proper;
    var a, ops := AFs(SMALL, map[], map[]), [CREATE_A, Write(0, [1])];
    InvShaped(s);
    CreateA(a);
    WriteOneToA();
    EmptyConnected(a);
    AlwaysProper(a, CREATE_A);
    assert ops == [CREATE_A] + [Write(0, [1])] && [Write(0, [1])] == [Write(0, [1])] + [];
    ARunTwo(a, CREATE_A, [Write(0, [1])]);
    ARunTwo(WithA([], 0), Write(0, [1]), []);
    ProperTwo(a, CREATE_A, Write(0, [1]));
    RunSimulates(s, a, ops);
    t := Run(s, ops).value.0;
    RepresentsParams(t, WithA([1], 1));
  }

  lemma ProperTwo(a: AFs, first: Op, second: Op)
    requires Connected(a) && Proper(a, first) && Connected(AStep(a, first).0) && Proper(AStep(a, first).0, second)
    requires Connected(AStep(AStep(a, first).0, second).0)
    ensures ProperRun(a, [first, second])
  {
    hide Connected, Proper, AStep;
    var b := AStep(a, first).0;
    assert [first, second][1..] == [second] && [second][1..] == [];
    assert ProperRun(AStep(b, second).0, []);
    assert ProperRun(b, [second]);
  }

  lemma {:induction false} ARunOneMore(a: AFs, ops: seq<Op>, op: Op)
    requires Connected(ARun(a, ops).0)
    ensures ARun(a, ops + [op]).0 == AStep(ARun(a, ops).0, op).0
    decreases |ops|
  {
    hide AStep, Connected;
    var run := ops + [op];
    if ops == [] {
      assert run[0] == op && run[1..] == [];
    } else if Connected(a) {
      assert run[0] == ops[0] && run[1..] == ops[1..] + [op];
      ARunOneMore(AStep(a, ops[0]).0, ops[1..], op);
    }
  }

  lemma LeakIsNotAgreed(m: Fs, b: AFs)
    requires Inv(m) && b == WithA([1], 1) && Represents(m, b) && Connected(b) && IsOpen(m, 0) && NoLowerBlock(m, 0)
    ensures Step(m, Open(PATH_A, TRUNCATE)).Done?
    ensures Shaped(Step(m, Open(PATH_A, TRUNCATE)).value.0) && Connected(AStep(b, Open(PATH_A, TRUNCATE)).0)
    ensures !Agrees(Step(m, Open(PATH_A, TRUNCATE)).value.0, AStep(b, Open(PATH_A, TRUNCATE)).0, Write(0, [2]))
  {
    hide Inv, Represents, AOpen, TfsOpen, AWrite, TfsWrite, IsFiles, IsHandles;
    assert FileOf(b, 0) == [1] && [1][..1] == [1];
    InvShaped(m);
    var t, d, u, c := TruncationLeaks(m, b, 0, PATH_A, [2]);
    InvShaped(t);
    InvShaped(u);
    var documented := AWrite(d, 0, [2]).0;
    assert ([1] + [2])[0] == 1 && (Zeros(1) + [2])[0] == 0;
    if Agrees(t, d, Write(0, [2])) {
      SameRepresented(u, c, documented);
    }
  }

  lemma SameRepresented(u: Fs, a: AFs, b: AFs)
    requires Shaped(u) && Represents(u, a) && Represents(u, b)
    ensures a.files == b.files
  {
    hide IsFiles, IsHandles;
    SameFiles(u.dir, u.inodes, u.data, u.params.blockSize, a.files, b.files);
  }

  // A truncation and a write through the handle that it left behind the end.
  lemma TruncationBreaks(s: Fs)
    requires Inv(s) && Represents(s, AFs(SMALL, map[], map[]))
    ensures Shaped(s)
    ensures !AgreesRun(s, AFs(SMALL, map[], map[]),
                       [CREATE_A, Write(0, [1]), Open(PATH_A, TRUNCATE), Write(0, [2])])
  {
    hide Inv, Represents, Step, AgreesRun, Agrees, Connected, AOpen, TfsOpen, AWrite, TfsWrite;
    var a, two := AFs(SMALL, map[], map[]), [CREATE_A, Write(0, [1])];
    var trunc, last := Open(PATH_A, TRUNCATE), Write(0, [2]);
    var run := [CREATE_A, Write(0, [1]), trunc, last];
    InvShaped(s);
    assert run == (two + [trunc]) + [last];
    if AgreesRun(s, a, run) {
      var m := OneByteInA(s);
      var b := WithA([1], 1);
      TwoBlocks(m, b, 0);
      AgreesSplit(s, a, two + [trunc], last);
      ARunOneMore(a, two, trunc);
      LeakIsNotAgreed(m, b);
      RunOneMore(s, two, trunc);
    }
  }

  // Short runs on which the code departs from its documentation: a write over the
  // block, a read over the file, a rewind at offset 0, a write through a handle
  // that a truncation left behind the end, a write through a handle of an unlinked
  // file whose inode another file got.
  lemma DocumentationNotMet(junk: Fs)
    requires Shaped(junk) && junk.params == SMALL
    ensures var r, a := TfsInit(junk), AFs(SMALL, map[], map[]);
            && r.Done? && Inv(r.value.0) && Represents(r.value.0, a)
            && var s := r.value.0;
            && !AgreesRun(s, a, [CREATE_A, Write(0, Zeros(45))])
            && !AgreesRun(s, a, [CREATE_A, Read(0, 1)])
            && !AgreesRun(s, a, [CREATE_A, Rewind(0)])
            && !AgreesRun(s, a, [CREATE_A, Write(0, [1]), Open(PATH_A, TRUNCATE), Write(0, [2])])
            && !AgreesRun(s, a, [CREATE_A, Unlink(PATH_A), Open(PATH_B, CREATE), Write(0, [1])])
  {
    hide Inv, Represents, HandleInv, TfsInit, Step, Agrees, AgreesRun, AStep;
    InitEmpty(junk);
    var s, a := TfsInit(junk).value.0, AFs(SMALL, map[], map[]);
    CreateA(a);
    LastCallBreaks(s, a, [CREATE_A], Write(0, Zeros(45)), WithA([], 0), [CREATE_A, Write(0, Zeros(45))]);
    LastCallBreaks(s, a, [CREATE_A], Read(0, 1), WithA([], 0), [CREATE_A, Read(0, 1)]);
    LastCallBreaks(s, a, [CREATE_A], Rewind(0), WithA([], 0), [CREATE_A, Rewind(0)]);
    UnlinkAndReuse(a);
    LastCallBreaks(s, a, [CREATE_A, Unlink(PATH_A), Open(PATH_B, CREATE)], Write(0, [1]), Reused(),
                   [CREATE_A, Unlink(PATH_A), Open(PATH_B, CREATE), Write(0, [1])]);
    TruncationBreaks(s);
  }
}
