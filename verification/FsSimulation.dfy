// The main results about TecnicoFS: exactly which calls, and which runs of calls,
// agree with the documented file system; and which leave no handle stranded.
module FsSimulation {
  import opened Prelude
  import opened Bytes
  import opened FsModel
  import opened FsAbstract
  import opened FsInvariant
  import opened FsDirectory
  import opened FsConservation
  import opened FsRefinement
  import opened FsOpening
  import opened FsUnlinking
  import opened FsWriting

  // ---- one call ----

  // The call returns, answers as documented and leaves tables that stand for the
  // documented state. Nothing is said about the invariants of this project.
  ghost predicate Agrees(s: Fs, a: AFs, op: Op)
    requires Shaped(s) && Connected(a)
  {
    Follows(Step(s, op), AStep(a, op))
  }

  ghost predicate Follows(r: Outcome<(Fs, Reply)>, b: (AFs, Reply)) {
    r.Done? && Shaped(r.value.0) && Represents(r.value.0, b.0) && r.value.1 == b.1
  }

  // The call is proper, or a write through a stranded handle that comes out right
  // by accident.
  ghost predicate Sound(s: Fs, a: AFs, op: Op)
    requires Inv(s) && Connected(a)
  {
    Proper(a, op) || (op.Write? && Lucky(s, a, op.h, op.buf))
  }

  // One call agrees with the documentation if and only if it is sound. This covers
  // every input: bad handles and names, full tables, handles behind the end of
  // their file or without one, and each misuse. A call that agrees keeps the
  // tables good.
  lemma StepExact(s: Fs, a: AFs, op: Op)
    requires Inv(s) && Represents(s, a)
    ensures Connected(a)
    ensures Agrees(s, a, op) <==> Sound(s, a, op)
    ensures Agrees(s, a, op) ==> Inv(Step(s, op).value.0)
  {
    hide Inv, Represents, Connected, Proper, Lucky;
    hide TfsOpen, TfsClose, TfsWrite, TfsRead, TfsRewindOffset, TfsUnlink;
    hide AOpen, AClose, AWrite, ARead, ARewind, AUnlink;
    InvShaped(s);
    RepresentsConnected(s, a);
    match op
    case Open(name, mode) =>
      OpenAgrees(s, a, name, mode);
      AlwaysProper(a, op);
    case Close(h) =>
      CloseAgrees(s, a, h);
      AlwaysProper(a, op);
    case Write(h, buf) => WriteExact(s, a, h, buf);
    case Read(h, len) => ReadExact(s, a, h, len);
    case Rewind(h) => RewindExact(s, a, h);
    case Unlink(name) =>
      UnlinkAgrees(s, a, name);
      AlwaysProper(a, op);
  }

  // Opening, closing and unlinking always do what is documented.
  lemma AlwaysProper(a: AFs, op: Op)
    requires Connected(a) && (op.Open? || op.Close? || op.Unlink?)
    ensures Proper(a, op)
  {
  }

  // ---- runs ----

  function Run(s: Fs, ops: seq<Op>): (r: Outcome<(Fs, seq<Reply>)>)
    requires Shaped(s)
    ensures r.Done? ==> Shaped(r.value.0)
    decreases |ops|
  {
    if ops == [] then Done((s, []))
    else
      var (t, reply) :- Step(s, ops[0]);
      var (u, replies) :- Run(t, ops[1..]);
      Done((u, [reply] + replies))
  }

  // The documented file system's run; its handles always stay connected.
  function ARun(a: AFs, ops: seq<Op>): (AFs, seq<Reply>)
    decreases |ops|
  {
    if ops == [] || !Connected(a) then (a, [])
    else
      var (b, reply) := AStep(a, ops[0]);
      var (c, replies) := ARun(b, ops[1..]);
      (c, [reply] + replies)
  }

  // Every call of the run agrees with the documentation.
  ghost predicate AgreesRun(s: Fs, a: AFs, ops: seq<Op>)
    requires Shaped(s)
    decreases |ops|
  {
    ops == [] ||
    (&& Connected(a) && Agrees(s, a, ops[0])
     && AgreesRun(Step(s, ops[0]).value.0, AStep(a, ops[0]).0, ops[1..]))
  }

  ghost predicate SoundRun(s: Fs, a: AFs, ops: seq<Op>)
    requires Inv(s) && Represents(s, a)
    decreases |ops|
  {
    if ops == [] then true
    else
      StepExact(s, a, ops[0]);
      Sound(s, a, ops[0]) && SoundRun(Step(s, ops[0]).value.0, AStep(a, ops[0]).0, ops[1..])
  }

  // A run agrees with the documentation at every call if and only if its calls are
  // sound, and then it keeps the tables good, returns from every call with the
  // documented replies and ends in the documented state.
  lemma {:induction false} RunExact(s: Fs, a: AFs, ops: seq<Op>)
    requires Inv(s) && Represents(s, a)
    ensures AgreesRun(s, a, ops) <==> SoundRun(s, a, ops)
    ensures AgreesRun(s, a, ops) ==>
              var r := Run(s, ops);
              r.Done? && Inv(r.value.0) && Represents(r.value.0, ARun(a, ops).0) && r.value.1 == ARun(a, ops).1
    decreases |ops|
  {
    hide Inv, Step, AStep, Sound, Connected, Represents;
    InvShaped(s);
    if ops == [] {
    } else {
      StepExact(s, a, ops[0]);
      if Sound(s, a, ops[0]) {
        RunExact(Step(s, ops[0]).value.0, AStep(a, ops[0]).0, ops[1..]);
      }
    }
  }

  ghost predicate ProperRun(a: AFs, ops: seq<Op>)
    decreases |ops|
  {
    Connected(a) && (ops == [] || (Proper(a, ops[0]) && ProperRun(AStep(a, ops[0]).0, ops[1..])))
  }

  // Simulation: a run whose calls are proper, judged on the documented states
  // alone, never panics, hangs or leaves the buffer; it answers what the documented
  // file system answers and ends in a state that stands for the documented one.
  lemma {:induction false} RunSimulates(s: Fs, a: AFs, ops: seq<Op>)
    requires Inv(s) && Represents(s, a) && ProperRun(a, ops)
    ensures AgreesRun(s, a, ops)
    ensures var r := Run(s, ops);
            r.Done? && Inv(r.value.0) && Represents(r.value.0, ARun(a, ops).0) && r.value.1 == ARun(a, ops).1
    decreases |ops|
  {
    hide Inv, Step, AStep, Proper, Connected, Represents;
    InvShaped(s);
    if ops == [] {
    } else {
      StepExact(s, a, ops[0]);
      RunSimulates(Step(s, ops[0]).value.0, AStep(a, ops[0]).0, ops[1..]);
    }
  }

  // ---- tidy states: no handle is stranded ----

  // A good state whose documented handles all stand inside their files is tidy.
  lemma NotStrandedIsTidy(s: Fs, a: AFs)
    requires Inv(s) && Represents(s, a) && Connected(a) && NoneStranded(a)
    ensures Tidy(s) && Abs(s) == a
  {
    hide DirInv, BlockInv, TreeInv, IsFiles, IsHandles;
    forall h | Live(s.openTaken, h)
      ensures LiveFile(s.inodeTaken, s.open[h].inumber)
      ensures s.open[h].offset <= s.inodes[s.open[h].inumber].size
    {
      assert IsOpen(s, h);
      LiveHandles(s, a, h);
      var k := HandleFacts(s, a, h);
    }
    AbsIs(s, a);
  }

  // Of the proper calls, exactly the disciplined ones strand no handle.
  lemma NoneStrandedExact(a: AFs, op: Op)
    requires Connected(a) && NoneStranded(a) && Proper(a, op) && Connected(AStep(a, op).0)
    ensures NoneStranded(AStep(a, op).0) <==> Disciplined(a, op)
  {
    match op
    case Open(name, mode) => StrandedByOpen(a, name, mode);
    case Unlink(name) => StrandedByUnlink(a, name);
    case _ => OthersStrandNone(a, op);
  }

  lemma StrandedByOpen(a: AFs, name: CString, mode: Mode)
    requires Connected(a) && NoneStranded(a) && Connected(AOpen(a, name, mode).0)
    ensures NoneStranded(AOpen(a, name, mode).0) <==> Disciplined(a, Open(name, mode))
  {
    var b := AOpen(a, name, mode).0;
    if !Disciplined(a, Open(name, mode)) {
      var h :| h in a.handles && a.handles[h].file == Some(name[1..]) && a.handles[h].offset != 0;
      assert h in b.handles && b.handles[h] == a.handles[h];
    } else {
      forall h: nat | h in b.handles ensures HasFile(b, h) && b.handles[h].offset <= |FileOf(b, h)| {
        assert h in a.handles ==> HasFile(a, h) && b.handles[h] == a.handles[h];
      }
    }
  }

  lemma StrandedByUnlink(a: AFs, name: CString)
    requires Connected(a) && NoneStranded(a) && Connected(AUnlink(a, name).0)
    ensures NoneStranded(AUnlink(a, name).0) <==> Disciplined(a, Unlink(name))
  {
    var b := AUnlink(a, name).0;
    if !Disciplined(a, Unlink(name)) {
      var h :| h in a.handles && a.handles[h].file == Some(name[1..]);
      assert h in b.handles && !HasFile(b, h);
    } else {
      forall h: nat | h in b.handles ensures HasFile(b, h) && b.handles[h].offset <= |FileOf(b, h)| {
        assert HasFile(a, h);
      }
    }
  }

  lemma OthersStrandNone(a: AFs, op: Op)
    requires Connected(a) && NoneStranded(a) && Proper(a, op) && !op.Open? && !op.Unlink?
    requires Connected(AStep(a, op).0)
    ensures NoneStranded(AStep(a, op).0)
  {
    var b := AStep(a, op).0;
    forall h: nat | h in b.handles ensures HasFile(b, h) && b.handles[h].offset <= |FileOf(b, h)| {
      assert HasFile(a, h);
    }
  }

  // In a tidy state no write is right by accident.
  lemma TidyIsNotLucky(s: Fs, a: AFs, h: int, buf: seq<byte>)
    requires Inv(s) && Represents(s, a) && Connected(a) && NoneStranded(a)
    ensures !Lucky(s, a, h, buf)
  {
    LiveHandles(s, a, h);
  }

  // From a tidy state a call agrees with the documentation and leaves a tidy state
  // if and only if it is disciplined; the states involved stand for one documented
  // state each.
  lemma TidyExact(s: Fs, op: Op)
    requires Tidy(s)
    ensures TidyStep(s, op) <==> Disciplined(Abs(s), op)
  {
    hide Inv, Represents, Connected, Proper, Lucky, Step, AStep, HandleInv, NoneStranded, Disciplined;
    InvShaped(s);
    var a := Abs(s);
    StepExact(s, a, op);
    DisciplinedIsProper(a, op);
    if op.Write? {
      TidyIsNotLucky(s, a, op.h, op.buf);
    }
    if Proper(a, op) {
      var t, b := Step(s, op).value.0, AStep(a, op).0;
      RepresentsConnected(t, b);
      NoneStrandedExact(a, op);
      if NoneStranded(b) {
        NotStrandedIsTidy(t, b);
      }
    }
  }

  ghost predicate TidyStep(s: Fs, op: Op)
    requires Tidy(s)
  {
    var r := Step(s, op);
    r.Done? && Tidy(r.value.0) && (Abs(r.value.0), r.value.1) == AStep(Abs(s), op)
  }

  lemma DisciplinedIsProper(a: AFs, op: Op)
    requires Connected(a)
    ensures Disciplined(a, op) ==> Proper(a, op)
  {
  }

  ghost predicate DisciplinedRun(a: AFs, ops: seq<Op>)
    decreases |ops|
  {
    Connected(a) && (ops == [] || (Disciplined(a, ops[0]) && DisciplinedRun(AStep(a, ops[0]).0, ops[1..])))
  }

  // A disciplined run from a tidy state stays tidy and simulates the documentation.
  lemma {:induction false} RunTidy(s: Fs, ops: seq<Op>)
    requires Tidy(s) && DisciplinedRun(Abs(s), ops)
    ensures var r := Run(s, ops);
            r.Done? && Tidy(r.value.0) && (Abs(r.value.0), r.value.1) == ARun(Abs(s), ops)
    decreases |ops|
  {
    hide Inv, HandleInv, Step, AStep, Disciplined, Connected;
    InvShaped(s);
    if ops == [] {
    } else {
      TidyExact(s, ops[0]);
      RunTidy(Step(s, ops[0]).value.0, ops[1..]);
    }
  }

  // ---- initial state ----

  // tfs_init succeeds exactly when there is an inode and a block for the root,
  // whatever the malloc'ed tables contained, and the file system is then empty.
  lemma InitEmpty(junk: Fs)
    requires Shaped(junk)
    ensures var r := TfsInit(junk);
            && r.Done?
            && (r.value.1 == 0 <==> junk.params.maxInodes > 0 && junk.params.maxBlocks > 0)
            && (r.value.1 == 0 ==> Tidy(r.value.0) && Abs(r.value.0) == AFs(junk.params, map[], map[]))
            && (r.value.1 != 0 ==>
                  r.value.1 == -1 && forall i :: 0 <= i < junk.params.maxInodes ==> !r.value.0.inodeTaken[i])
  {
    var r := TfsInit(junk);
    if junk.params.maxInodes > 0 && junk.params.maxBlocks > 0 {
      InitTables(junk);
      InitInv(r.value.0);
    }
  }

  ghost predicate Fresh(s: Fs) {
    && Shaped(s) && !s.locked && |s.inodes| > 0 && |s.blockTaken| > 0
    && s.inodes[0] == Inode(TDirectory, s.params.blockSize, 0)
    && (forall i :: 0 <= i < |s.inodeTaken| ==> (s.inodeTaken[i] <==> i == 0))
    && (forall b :: 0 <= b < |s.blockTaken| ==> (s.blockTaken[b] <==> b == 0))
    && (forall h :: 0 <= h < |s.openTaken| ==> !s.openTaken[h])
    && (forall k :: 0 <= k < |s.dir| ==> s.dir[k].inumber == -1)
  }

  lemma InitTables(junk: Fs)
    requires Shaped(junk) && junk.params.maxInodes > 0 && junk.params.maxBlocks > 0
    ensures TfsInit(junk).Done? && TfsInit(junk).value.1 == 0
    ensures Fresh(TfsInit(junk).value.0) && TfsInit(junk).value.0.params == junk.params
  {
    var s := StateInit(junk);
    assert FirstFree(s.inodeTaken) == 0 && FirstFree(s.blockTaken) == 0;
  }

  lemma InitInv(s: Fs)
    requires Fresh(s)
    ensures Tidy(s) && Abs(s) == AFs(s.params, map[], map[])
  {
    assert forall k :: !Used(s.dir, k);
    assert UsedEnd(s.dir) == 0;
    assert Owns(s.inodes, s.inodeTaken, 0, 0);
    assert forall i, b :: Owns(s.inodes, s.inodeTaken, i, b) ==> i == 0 && b == 0;
    assert forall h :: !Live(s.openTaken, h);
    NotStrandedIsTidy(s, AFs(s.params, map[], map[]));
  }

  // From tfs_init on: every proper run from a fresh file system agrees with the
  // documentation, and every disciplined one leaves no handle stranded.
  lemma ReachableRun(junk: Fs, ops: seq<Op>)
    requires Shaped(junk) && junk.params.maxInodes > 0 && junk.params.maxBlocks > 0
    requires ProperRun(AFs(junk.params, map[], map[]), ops)
    ensures TfsInit(junk).Done?
    ensures var a, r := AFs(junk.params, map[], map[]), Run(TfsInit(junk).value.0, ops);
            && r.Done? && Inv(r.value.0) && Represents(r.value.0, ARun(a, ops).0) && r.value.1 == ARun(a, ops).1
            && (DisciplinedRun(a, ops) ==> Tidy(r.value.0) && Abs(r.value.0) == ARun(a, ops).0)
  {
    hide Inv, TfsInit, Step, AStep, Represents, HandleInv, Proper, Disciplined, Connected;
    InitEmpty(junk);
    var a, s := AFs(junk.params, map[], map[]), TfsInit(junk).value.0;
    RunSimulates(s, a, ops);
    if DisciplinedRun(a, ops) {
      RunTidy(s, ops);
    }
  }
}
