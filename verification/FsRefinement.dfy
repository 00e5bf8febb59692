// When a call on the tables does what the documented file system does: reading,
// rewinding and truncating.
module FsRefinement {
  import opened Prelude
  import opened Bytes
  import opened FsModel
  import opened FsAbstract
  import opened FsInvariant
  import opened FsDirectory
  import opened FsBlocks

  // The call returns, and both its effect and its reply are the documented ones.
  ghost predicate Match(r: Outcome<(Fs, int)>, b: (AFs, int)) {
    r.Done? && Shaped(r.value.0) && Represents(r.value.0, b.0) && r.value.1 == b.1
  }

  ghost predicate MatchRead(r: Outcome<(Fs, Option<seq<byte>>)>, b: (AFs, Reply)) {
    && r.Done? && Shaped(r.value.0) && Represents(r.value.0, b.0)
    && b.1 == if r.value.1.None? then Code(-1) else Reply.Bytes(r.value.1.value)
  }

  // ---- read ----

  lemma SubSlice(data: seq<byte>, p: nat, size: nat, off: nat, len: nat)
    requires p + size <= |data| && off + len <= size
    ensures data[p..p + size][off..off + len] == data[p + off..p + off + len]
  {
    var c := data[p..p + size];
    assert forall j :: off <= j < off + len ==> c[j] == data[p + j];
  }

  // The bytes delivered are the bytes of the file at the handle's offset.
  lemma ReadBytes(s: Fs, h: int, len: nat) returns (end: nat)
    requires Inv(s) && IsOpen(s, h) && len > 0 && LiveFile(s.inodeTaken, s.open[h].inumber)
    requires s.open[h].offset + len <= s.inodes[s.open[h].inumber].size
    ensures end == s.open[h].offset + len <= s.params.blockSize
    ensures var c := Content(s.inodes[s.open[h].inumber], s.data, s.params.blockSize);
            s.open[h].offset + len <= |c| &&
            TfsRead(s, h, len) ==
            Done((s.(open := s.open[h := s.open[h].(offset := end)]), Some(c[s.open[h].offset..end])))
  {
    hide DirInv;
    end := s.open[h].offset + len;
    var i := s.open[h].inumber;
    assert Owns(s.inodes, s.inodeTaken, i, s.inodes[i].block);
    BlockFits(s, s.inodes[i].block);
    SubSlice(s.data, s.inodes[i].block * s.params.blockSize, s.inodes[i].size, s.open[h].offset, len);
  }

  lemma DocumentedRead(a: AFs, h: int, len: nat)
    requires Connected(a) && HasFile(a, h) && len > 0 && a.handles[h].offset + len <= |FileOf(a, h)|
    ensures var at := a.handles[h].offset;
            ARead(a, h, len) ==
            (a.(handles := a.handles[h := a.handles[h].(offset := at + len)]),
             Reply.Bytes(FileOf(a, h)[at..at + len]))
  {
  }

  // A read inside the file delivers the file's bytes and moves its own handle only.
  lemma ReadAgrees(s: Fs, a: AFs, h: int, len: nat)
    requires Inv(s) && Represents(s, a) && Connected(a) && HasFile(a, h) && len > 0
    requires a.handles[h].offset + len <= |FileOf(a, h)|
    ensures MatchRead(TfsRead(s, h, len), ARead(a, h, len)) && Inv(TfsRead(s, h, len).value.0)
  {
    hide Inv, Represents, TfsRead, ARead, Content;
    var k := HandleFacts(s, a, h);
    var end := ReadBytes(s, h, len);
    DocumentedRead(a, h, len);
    OffsetMoved(s, a, h, end);
  }

  // A read that runs past its file answers with more bytes than the file has left,
  // and leaves the handle behind the end, if it returns at all.
  lemma ReadPastEnd(s: Fs, a: AFs, h: int, len: nat)
    requires Inv(s) && Represents(s, a) && Connected(a) && HasFile(a, h)
    requires len > 0 && a.handles[h].offset + len > |FileOf(a, h)|
    ensures TfsRead(s, h, len).Done? ==>
              var (t, bytes) := TfsRead(s, h, len).value;
              bytes.Some? && |bytes.value| == len && h < |t.open| && t.open[h].offset > |FileOf(a, h)|
    ensures !MatchRead(TfsRead(s, h, len), ARead(a, h, len))
  {
    hide DirInv, TreeInv, BlockInv, IsFiles, IsHandles, Represents, Content;
    var k := HandleFacts(s, a, h);
  }

  // The code reads through a handle whose file is gone, which is read here as an error.
  lemma ReadStale(s: Fs, a: AFs, h: int, len: nat)
    requires Inv(s) && Represents(s, a) && Connected(a) && IsOpen(s, h) && !HasFile(a, h)
    ensures TfsRead(s, h, len).Done? ==> TfsRead(s, h, len).value.1.Some?
    ensures ARead(a, h, len) == (a, Code(-1)) && !MatchRead(TfsRead(s, h, len), ARead(a, h, len))
  {
    hide DirInv, TreeInv, BlockInv, IsFiles, IsHandles, Represents;
    LiveHandles(s, a, h);
  }

  lemma ReadNothing(s: Fs, a: AFs, h: int)
    requires Inv(s) && Represents(s, a) && Connected(a) && HasFile(a, h)
    ensures TfsRead(s, h, 0) == Done((s, Some([]))) && ARead(a, h, 0) == (a, Reply.Bytes([]))
  {
    hide DirInv, TreeInv, BlockInv, IsFiles, IsHandles, Content, Represents;
    var k := HandleFacts(s, a, h);
    assert a.handles[h := a.handles[h]] == a.handles;
  }

  // tfs_read meets its documentation exactly when the handle has a file and the
  // read ends inside it.
  lemma ReadExact(s: Fs, a: AFs, h: int, len: nat)
    requires Inv(s) && Represents(s, a) && Connected(a)
    ensures MatchRead(TfsRead(s, h, len), ARead(a, h, len)) <==> Proper(a, Read(h, len))
    ensures Proper(a, Read(h, len)) ==> Inv(TfsRead(s, h, len).value.0)
  {
    hide Inv, Represents, MatchRead;
    InvShaped(s);
    LiveHandles(s, a, h);
    if IsOpen(s, h) {
      if !HasFile(a, h) {
        ReadStale(s, a, h, len);
      } else if len == 0 {
        ReadNothing(s, a, h);
        ReadUnmoved(s, a, TfsRead(s, h, 0), ARead(a, h, 0));
      } else if a.handles[h].offset + len <= |FileOf(a, h)| {
        ReadAgrees(s, a, h, len);
      } else {
        ReadPastEnd(s, a, h, len);
      }
    } else {
      ReadUnmoved(s, a, TfsRead(s, h, len), ARead(a, h, len));
    }
  }

  lemma ReadUnmoved(s: Fs, a: AFs, r: Outcome<(Fs, Option<seq<byte>>)>, b: (AFs, Reply))
    requires Inv(s) && Represents(s, a) && b.0 == a
    requires (r == Done((s, None)) && b.1 == Code(-1)) || (r == Done((s, Some([]))) && b.1 == Reply.Bytes([]))
    ensures MatchRead(r, b)
  {
  }

  // ---- rewind ----

  lemma RewindAgrees(s: Fs, a: AFs, h: int)
    requires Inv(s) && Represents(s, a) && IsOpen(s, h) && s.open[h].offset > 0
    ensures Match(TfsRewindOffset(s, h), ARewind(a, h)) && Inv(TfsRewindOffset(s, h).value.0)
  {
    RewindIs(s, h);
    hide Inv, Represents, TfsRewindOffset;
    LiveHandles(s, a, h);
    OffsetMoved(s, a, h, 0);
  }

  lemma RewindIs(s: Fs, h: int)
    requires Inv(s) && IsOpen(s, h) && s.open[h].offset > 0
    ensures TfsRewindOffset(s, h) == Done((s.(open := s.open[h := s.open[h].(offset := 0)]), 0))
  {
    assert Live(s.openTaken, h);
  }

  // At offset 0 the mutex stays locked, so no later call ever returns.
  lemma RewindKeepsLock(s: Fs, h: int)
    requires Inv(s) && IsOpen(s, h) && s.open[h].offset == 0
    ensures TfsRewindOffset(s, h) == Done((s.(locked := true), 0))
    ensures forall op :: Step(s.(locked := true), op) == Blocked
  {
    assert Live(s.openTaken, h);
  }

  // tfs_rewind_offset meets its documentation exactly at a non-zero offset or on a
  // handle that is not open.
  lemma RewindExact(s: Fs, a: AFs, h: int)
    requires Inv(s) && Represents(s, a) && Connected(a)
    ensures Match(TfsRewindOffset(s, h), ARewind(a, h)) <==> Proper(a, Rewind(h))
    ensures Proper(a, Rewind(h)) ==> Inv(TfsRewindOffset(s, h).value.0)
  {
    hide DirInv, TreeInv, BlockInv, IsFiles, IsHandles;
    LiveHandles(s, a, h);
    if IsOpen(s, h) {
      if s.open[h].offset > 0 {
        RewindAgrees(s, a, h);
      } else {
        RewindKeepsLock(s, h);
      }
    }
  }

  // ---- truncation ----

  lemma TruncateTables(s: Fs, k: int) returns (i: int)
    requires Inv(s) && Used(s.dir, k)
    ensures i == s.dir[k].inumber && LiveFile(s.inodeTaken, i) && InodesInRange(s.dir, |s.inodes|)
    ensures var r := Truncate(s, i);
            && r.Done? && Shaped(r.value) && !r.value.locked
            && TreeInv(s.dir, r.value.inodes, s.inodeTaken)
            && BlockInv(r.value.inodes, s.inodeTaken, r.value.blockTaken, s.params.blockSize)
            && r.value == s.(inodes := s.inodes[i := s.inodes[i].(size := 0)], blockTaken := r.value.blockTaken)
  {
    i := s.dir[k].inumber;
    var inodes' := s.inodes[i := s.inodes[i].(size := 0)];
    BlockReleased(s.inodes, s.inodeTaken, s.blockTaken, s.params.blockSize, i, inodes', s.inodeTaken);
    assert s.inodes[i].size == 0 ==> inodes' == s.inodes;
  }

  // Truncation empties the file and frees its block; nobody else notices, and
  // handles stay where they are, even behind the new end.
  lemma TruncateAgrees(s: Fs, a: AFs, k: int)
    requires Inv(s) && Represents(s, a) && Used(s.dir, k)
    ensures var r := Truncate(s, s.dir[k].inumber);
            && r.Done? && Inv(r.value) && Represents(r.value, a.(files := a.files[SlotName(s.dir, k) := []]))
            && r.value.dir == s.dir && r.value.inodes[s.dir[k].inumber].size == 0
  {
    hide Truncate, TreeInv, BlockInv, IsHandles, IsFiles;
    var i := TruncateTables(s, k);
    FileReplaced(s.dir, s.inodes, s.data, Truncate(s, i).value.inodes, s.data, s.params.blockSize, a.files, k, []);
  }
}
