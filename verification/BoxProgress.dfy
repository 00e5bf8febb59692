// When the broker's commands get their work done.
module BoxProgress {
  import opened Prelude
  import opened Bytes
  import opened M = FsModel
  import opened FsAbstract
  import opened FsInvariant
  import opened FsExact
  import opened BoxLog
  import opened Framing
  import opened BoxProtocol
  import opened BoxFrames
  import opened BoxSafety
  import opened BoxRuns

  // ---- creating a box ----

  lemma FreeHandleOpens(a: AFs, path: CString, mode: Mode)
    requires a.handles.Keys <= UpTo(a.params.maxOpen) && !mode.trunc
    ensures AOpen(a, path, mode).1 >= 0 <==>
            && |a.handles| < a.params.maxOpen && ValidPathname(path)
            && (path[1..] in a.files || (mode.creat && CanCreate(a, path[1..])))
  {
    var h := LowestFree(a.handles.Keys, a.params.maxOpen);
    SubsetCard(a.handles.Keys, UpTo(a.params.maxOpen));
    if h == a.params.maxOpen {
      assert a.handles.Keys == UpTo(h);
    } else {
      assert h in UpTo(a.params.maxOpen) && h !in a.handles.Keys;
    }
  }

  // create_box_command adds a box exactly when the name is new and valid, a
  // handle is free, and the file exists or can be created; the box is empty.
  lemma CreateExact(b: BrokerState, path: CString)
    requires BInv(b)
    ensures Shaped(b.fs) && Fine(CreateBox(b, path))
    ensures var c := CreateBox(b, path).value;
            && (path in c.boxes && path !in b.boxes <==>
                  && path !in b.boxes && HasFreeHandle(b) && IsPath(path)
                  && (path[1..] in Abs(b.fs).files || MayCreate(Abs(b.fs), path)))
            && (path in c.boxes && path !in b.boxes ==>
                  c.boxes[path].log == [] && c.boxes[path].sizes == [] && c.boxes[path].session == Idle)
            && (forall other :: other in b.boxes ==> other in c.boxes && c.boxes[other] == b.boxes[other])
            && (forall other :: other in c.boxes && other != path ==> other in b.boxes)
  {
    hide Tidy, Inv, Represents, NoneStranded, Abs, Good, Step, AOpen, OneMore, ValidPathname, CanCreate, MayCreate;
    AbsFacts(b.fs);
    PathsAre(Abs(b.fs), path);
    CreateFine(b, path);
    if path !in b.boxes {
      Opening(b, path, TFS_O_CREAT, Creator(path));
      HandlesInTable(b.fs);
      FreeHandleOpens(Abs(b.fs), path, TFS_O_CREAT);
    }
  }

  // ---- publishing a message ----

  // write_to_box, uninterrupted.
  function WholeMessage(path: CString, body: Buffer): seq<Action> {
    [Publish(path, body), Store(path), Shut(path), Record(path)]
  }

  // The file's block has a place for the message behind the recorded ones, or
  // there is a block for its first bytes.
  ghost predicate Placed(b: BrokerState, path: CString, msg: Message)
    requires BInv(b) && path in b.boxes
  {
    var written := |Flatten(b.boxes[path].log)|;
    msg == [] || (written + |msg| <= b.fs.params.blockSize && (written > 0 || HasRoom(Abs(b.fs))))
  }

  // The box has one more recorded message and its publisher goes on.
  predicate Recorded(b: BrokerState, c: BrokerState, path: CString, msg: Message) {
    At(c, path, Ready) && path in b.boxes && c.boxes[path].log == b.boxes[path].log + [msg]
  }

  lemma PublishOnce(b: BrokerState, path: CString, body: Buffer)
    requires BInv(b) && At(b, path, Ready) && ReceivedText(body).Done?
    ensures Shaped(b.fs) && Fine(PublishStep(b, path, body))
    ensures var c, msg := PublishStep(b, path, body).value, ReceivedText(body).value;
            && path in c.boxes && c.boxes[path].log == b.boxes[path].log
            && Abs(c.fs).files == Abs(b.fs).files && Abs(c.fs).params == Abs(b.fs).params
            && if HasFreeHandle(b) then c.boxes[path].session.Opened? && c.boxes[path].session.msg == msg
               else c.boxes[path].session == Dead
  {
    hide Tidy, Inv, Represents, NoneStranded, Abs;
    hide Good, Step, AOpen, BoxOk, ValidPathname, Terminated, IsText;
    AbsFacts(b.fs);
    PublishFine(b, path, body);
    BoxFacts(Abs(b.fs), b, path);
    Opening(b, path, TFS_O_APPEND, Publisher(path));
    HandlesInTable(b.fs);
    FreeHandleOpens(Abs(b.fs), path, TFS_O_APPEND);
  }

  lemma StoreOnce(b: BrokerState, path: CString)
    requires BInv(b) && path in b.boxes && b.boxes[path].session.Opened? && Fits(Abs(b.fs), b.boxes[path])
    ensures Shaped(b.fs) && Fine(StoreStep(b, path))
    ensures var Opened(fd, msg) := b.boxes[path].session;
            At(StoreStep(b, path).value, path, if Placed(b, path, msg) then Wrote(fd, msg) else Dead)
    ensures StoreStep(b, path).value.boxes[path].log == b.boxes[path].log
  {
    hide Tidy, Inv, Represents, NoneStranded, Abs;
    hide Good, Step, BoxOk, ValidPathname, Disciplined, HasRoom, Flatten, AWrite;
    AbsFacts(b.fs);
    FittingFine(b, path);
    var a := Abs(b.fs);
    var Opened(fd, msg) := b.boxes[path].session;
    BoxFacts(a, b, path);
    OpenedFacts(a, b.owners, path, b.boxes[path]);
    FitsDisciplined(a, b.owners, path, b.boxes[path]);
    CallAgrees(b.fs, Write(fd, msg));
    WriteCode(a, fd, msg);
  }

  lemma WriteCode(a: AFs, fd: nat, msg: Message)
    requires Connected(a) && HasFile(a, fd) && a.params.blockSize > 0
    requires a.handles[fd].offset == |FileOf(a, fd)|
    ensures AWrite(a, fd, msg).1 < 0 <==>
            msg != [] && a.handles[fd].offset < a.params.blockSize && a.handles[fd].offset == 0 && !HasRoom(a)
  {
  }

  lemma ShutOnce(b: BrokerState, path: CString)
    requires BInv(b) && path in b.boxes && b.boxes[path].session.Wrote?
    ensures Shaped(b.fs) && Fine(ShutStep(b, path))
    ensures At(ShutStep(b, path).value, path, Closed(b.boxes[path].session.msg))
    ensures ShutStep(b, path).value.boxes[path].log == b.boxes[path].log
  {
    hide Tidy, Inv, Represents, NoneStranded, Abs, Good, Step, BoxOk, AClose;
    AbsFacts(b.fs);
    ShutFine(b, path);
    var fd := b.boxes[path].session.fd;
    BoxFacts(Abs(b.fs), b, path);
    ShutBox(Abs(b.fs), b.owners, path, b.boxes[path]);
    CallAgrees(b.fs, Close(fd));
    CloseWorks(Abs(b.fs), fd);
  }

  lemma FineRunCons(b: BrokerState, act: Action, rest: seq<Action>)
    requires BInv(b)
    ensures Shaped(b.fs)
    ensures FineRun(b, [act] + rest) <==> Fine(BStep(b, act)) && FineRun(BStep(b, act).value, rest)
  {
    hide Tidy, Good, BStep;
    AbsFacts(b.fs);
    assert ([act] + rest)[1..] == rest;
  }

  // From the stored message on nothing can go wrong.
  lemma LastTwoSteps(b: BrokerState, path: CString)
    requires BInv(b) && path in b.boxes && b.boxes[path].session.Wrote?
    ensures Shaped(b.fs) && FineRun(b, [Shut(path), Record(path)])
    ensures Exec(b, [Shut(path), Record(path)]).Done?
    ensures Recorded(b, Exec(b, [Shut(path), Record(path)]).value, path, b.boxes[path].session.msg)
  {
    hide Tidy, Inv, Represents, NoneStranded, Abs, Good, Step, FineRun, Exec, ShutStep;
    AbsFacts(b.fs);
    ShutOnce(b, path);
    var c := ShutStep(b, path).value;
    assert [Shut(path), Record(path)] == [Shut(path)] + [Record(path)] && [Record(path)] == [Record(path)] + [];
    FineRunCons(b, Shut(path), [Record(path)]);
    ExecCons(b, Shut(path), [Record(path)]);
    OneRecord(c, path);
  }

  lemma OneRecord(c: BrokerState, path: CString)
    requires BInv(c) && path in c.boxes && c.boxes[path].session.Closed?
    ensures Shaped(c.fs) && FineRun(c, [Record(path)]) && Exec(c, [Record(path)]) == Done(RecordStep(c, path))
    ensures Recorded(c, RecordStep(c, path), path, c.boxes[path].session.msg)
  {
    hide Tidy, Good, Step;
    AbsFacts(c.fs);
    RecordFine(c, path);
    assert [Record(path)] == [Record(path)] + [];
    FineRunCons(c, Record(path), []);
    ExecCons(c, Record(path), []);
  }

  // A publisher whose session has ended takes no more steps.
  lemma DeadSteps(b: BrokerState, path: CString, acts: seq<Action>)
    requires BInv(b) && At(b, path, Dead)
    requires acts == [Store(path), Shut(path), Record(path)] || acts == [Shut(path), Record(path)]
    ensures Shaped(b.fs) && Exec(b, acts) == Done(b)
  {
    hide Tidy, Good, Step;
    AbsFacts(b.fs);
    ExecCons(b, Record(path), []);
    ExecCons(b, Shut(path), [Record(path)]);
    ExecCons(b, Store(path), [Shut(path), Record(path)]);
    assert [Record(path)] == [Record(path)] + [];
    assert [Shut(path), Record(path)] == [Shut(path)] + [Record(path)];
    assert [Store(path), Shut(path), Record(path)] == [Store(path)] + [Shut(path), Record(path)];
  }

  // write_to_box, from a good state and uninterrupted, passes through good states
  // only and records the text it was sent if and only if the frame is terminated
  // and there is a handle and a place for the text.
  lemma MessageExact(b: BrokerState, path: CString, body: Buffer)
    requires BInv(b) && At(b, path, Ready)
    ensures Shaped(b.fs)
    ensures WorksOut(b, path, body) <==>
            Terminated(body) && HasFreeHandle(b) && Placed(b, path, CStr(body))
  {
    hide Tidy, Inv, Represents, NoneStranded, Abs;
    hide Good, Step, FineRun, Exec, PublishStep, StoreStep, Placed, HasFreeHandle, Terminated, IsText, CStr;
    AbsFacts(b.fs);
    var rest := [Store(path), Shut(path), Record(path)];
    assert WholeMessage(path, body) == [Publish(path, body)] + rest;
    FineRunCons(b, Publish(path, body), rest);
    ExecCons(b, Publish(path, body), rest);
    PublishFine(b, path, body);
    if Terminated(body) {
      PublishOnce(b, path, body);
      var c := PublishStep(b, path, body).value;
      PlacedAfterOpen(b, c, path, CStr(body));
      if HasFreeHandle(b) {
        StoreExact(c, path);
      } else {
        DeadSteps(c, path, rest);
      }
    }
  }

  ghost predicate WorksOut(b: BrokerState, path: CString, body: Buffer)
    requires BInv(b) && Shaped(b.fs)
  {
    var r := Exec(b, WholeMessage(path, body));
    FineRun(b, WholeMessage(path, body)) && r.Done? && Recorded(b, r.value, path, CStr(body))
  }

  // The open changes no file, so it does not matter when this is asked.
  lemma PlacedAfterOpen(b: BrokerState, c: BrokerState, path: CString, msg: Message)
    requires BInv(b) && BInv(c) && path in b.boxes && path in c.boxes && c.boxes[path].log == b.boxes[path].log
    requires Abs(c.fs).files == Abs(b.fs).files && Abs(c.fs).params == Abs(b.fs).params
    ensures Placed(b, path, msg) <==> Placed(c, path, msg)
  {
    hide Tidy, Inv, Represents, NoneStranded, Abs, Good;
    AbsFacts(b.fs);
    AbsFacts(c.fs);
  }

  lemma StoreExact(c: BrokerState, path: CString)
    requires BInv(c) && path in c.boxes && c.boxes[path].session.Opened?
    ensures Shaped(c.fs)
    ensures var rest, msg := [Store(path), Shut(path), Record(path)], c.boxes[path].session.msg;
            FineRun(c, rest) && Exec(c, rest).Done? && Recorded(c, Exec(c, rest).value, path, msg) <==>
            Placed(c, path, msg)
  {
    hide Tidy, Inv, Represents, NoneStranded, Abs;
    hide Good, Step, FineRun, Exec, StoreStep, HasRoom, Flatten;
    AbsFacts(c.fs);
    var last, msg := [Shut(path), Record(path)], c.boxes[path].session.msg;
    assert [Store(path), Shut(path), Record(path)] == [Store(path)] + last;
    FineRunCons(c, Store(path), last);
    ExecCons(c, Store(path), last);
    StoreFine(c, path);
    if Fits(Abs(c.fs), c.boxes[path]) {
      StoreOnce(c, path);
      var d := StoreStep(c, path).value;
      if Placed(c, path, msg) {
        LastTwoSteps(d, path);
      } else {
        DeadSteps(d, path, last);
      }
    }
  }
}
