// A publisher's session: how it begins and ends, how errors end it, and that what
// is sent in between is recorded.
module BoxSession {
  import opened Prelude
  import opened Bytes
  import opened M = FsModel
  import opened FsAbstract
  import opened FsInvariant
  import opened FsExact
  import opened BoxLog
  import opened Framing
  import opened BoxProtocol
  import opened BoxFrames
  import opened BoxSafety
  import opened BoxRuns
  import opened BoxProgress

  // ---- the steps that only move a session ----

  // Where the publisher of a box stands is moved from one place to another, and
  // nothing else; from anywhere else the step does nothing.
  ghost predicate Moves(b: BrokerState, act: Action, path: CString, from: Session, to: Session)
    requires Shaped(b.fs)
  {
    var r := BStep(b, act);
    && r.Done? && r.value.fs == b.fs && r.value.replays == b.replays && r.value.owners == b.owners
    && r.value.boxes.Keys == b.boxes.Keys
    && (forall other :: other in b.boxes && other != path ==> r.value.boxes[other] == b.boxes[other])
    && (path in b.boxes ==>
          var box, box' := b.boxes[path], r.value.boxes[path];
          && box'.fd == box.fd && box'.sizes == box.sizes && box'.log == box.log
          && box'.session == if box.session == from then to else box.session)
  }

  // A registration makes the publisher of a free box ready, a removal frees the box
  // of a publisher that is ready, and an error on its pipe ends its session.
  lemma SessionMoves(b: BrokerState, path: CString)
    requires Shaped(b.fs)
    ensures Moves(b, Register(path), path, Idle, Ready)
    ensures Moves(b, Unregister(path), path, Ready, Idle)
    ensures Moves(b, GiveUp(path), path, Ready, Dead)
  {
    hide CreateBox, PublishStep, StoreStep, ShutStep, RecordStep, SubscribeStep, RestartStep, FetchStep;
  }

  // ---- errors ----

  // In any state, good or not: a call of write_to_box that returns -1 ends the
  // session and records nothing.
  lemma ErrorsEndSessions(b: BrokerState, path: CString, body: Buffer)
    requires Shaped(b.fs) && path in b.boxes
    ensures At(b, path, Ready) && ReceivedText(body).Done? && Fails(b, Open(path, Mode(false, false, true))) ==>
              EndsSession(b, Publish(path, body), path)
    ensures b.boxes[path].session.Opened? && Fails(b, Write(b.boxes[path].session.fd, b.boxes[path].session.msg)) ==>
              EndsSession(b, Store(path), path)
    ensures b.boxes[path].session.Wrote? && Fails(b, Close(b.boxes[path].session.fd)) ==>
              EndsSession(b, Shut(path), path)
  {
    hide Step, ReceivedText;
  }

  ghost predicate Fails(b: BrokerState, op: Op)
    requires Shaped(b.fs)
  {
    Step(b.fs, op).Done? && Step(b.fs, op).value.1 == Code(-1)
  }

  ghost predicate EndsSession(b: BrokerState, act: Action, path: CString)
    requires Shaped(b.fs) && path in b.boxes
  {
    var r := BStep(b, act);
    && r.Done? && At(r.value, path, Dead) && r.value.boxes[path].log == b.boxes[path].log
    && r.value.boxes[path].sizes == b.boxes[path].sizes && r.value.replays == b.replays
  }

  // In a replay, a failing open, rewind or first read is the end; a later read that
  // fails goes unnoticed, and the cleared buffer is sent as an empty text.
  lemma ErrorsInReplays(b: BrokerState, id: nat, path: CString, junk: Buffer)
    requires Shaped(b.fs)
    ensures id !in b.replays && path in b.boxes && Fails(b, Open(path, Mode(false, false, true))) ==>
              ReplayBecomes(b, Subscribe(id, path), id, Failed)
    ensures id in b.replays && b.replays[id].Begun? && Fails(b, Rewind(b.replays[id].fd)) ==>
              ReplayBecomes(b, Restart(id, junk), id, Failed)
    ensures ReadsNext(b, id) && Fails(b, Read(b.replays[id].fd, NextLength(b, id))) ==>
              ReplayBecomes(b, Fetch(id), id,
                            if b.replays[id].sent == [] then Failed
                            else Reading(b.replays[id].path, b.replays[id].fd, b.replays[id].junk,
                                         b.replays[id].sent + [[]]))
  {
    hide Step, ReplayedText;
    ReplayedExactly(Zeros(1024), [], []);
  }

  // The replay is reading and there is a next size in the list.
  predicate ReadsNext(b: BrokerState, id: nat) {
    && id in b.replays && b.replays[id].Reading? && b.replays[id].path in b.boxes
    && |b.replays[id].sent| < |b.boxes[b.replays[id].path].sizes|
  }

  function NextLength(b: BrokerState, id: nat): nat
    requires ReadsNext(b, id)
  {
    b.boxes[b.replays[id].path].sizes[|b.replays[id].sent|]
  }

  ghost predicate ReplayBecomes(b: BrokerState, act: Action, id: nat, replay: Replay)
    requires Shaped(b.fs)
  {
    var r := BStep(b, act);
    r.Done? && r.value.replays == b.replays[id := replay] && r.value.boxes == b.boxes
  }

  // ---- one message, told from the documented file system ----

  lemma PublishEffect(b: BrokerState, path: CString, body: Buffer)
    requires BInv(b) && At(b, path, Ready) && Terminated(body) && HasFreeHandle(b)
    ensures Shaped(b.fs) && Fine(PublishStep(b, path, body))
    ensures var c := PublishStep(b, path, body).value;
            && path in c.boxes && c.boxes[path].session.Opened? && c.boxes[path].session.msg == CStr(body)
            && c.boxes[path].log == b.boxes[path].log
            && Abs(c.fs).files == Abs(b.fs).files && Abs(c.fs).params == Abs(b.fs).params
            && c.boxes[path].session.fd !in Abs(b.fs).handles
            && Abs(c.fs).handles.Keys == Abs(b.fs).handles.Keys + {c.boxes[path].session.fd}
  {
    hide Tidy, Inv, Represents, NoneStranded, Abs;
    hide Good, Step, AOpen, BoxOk, ValidPathname, Terminated, IsText, CStr;
    PublishOnce(b, path, body);
    Opening(b, path, TFS_O_APPEND, Publisher(path));
  }

  lemma StoreEffect(b: BrokerState, path: CString)
    requires BInv(b) && path in b.boxes && b.boxes[path].session.Opened? && Fits(Abs(b.fs), b.boxes[path])
    requires Placed(b, path, b.boxes[path].session.msg)
    ensures Shaped(b.fs) && Fine(StoreStep(b, path)) && path[1..] in Abs(b.fs).files
    ensures var c := StoreStep(b, path).value;
            && At(c, path, Wrote(b.boxes[path].session.fd, b.boxes[path].session.msg))
            && c.boxes[path].log == b.boxes[path].log
            && Abs(c.fs).files == Abs(b.fs).files[path[1..] := Abs(b.fs).files[path[1..]] + b.boxes[path].session.msg]
            && Abs(c.fs).params == Abs(b.fs).params && Abs(c.fs).handles.Keys == Abs(b.fs).handles.Keys
            && b.boxes[path].session.fd in Abs(b.fs).handles
  {
    hide Tidy, Inv, Represents, NoneStranded, Abs;
    hide Good, Step, BoxOk, ValidPathname, Disciplined, HasRoom, Flatten, AWrite, Placed, Fits;
    StoreOnce(b, path);
    AbsFacts(b.fs);
    var a := Abs(b.fs);
    var Opened(fd, msg) := b.boxes[path].session;
    BoxFacts(a, b, path);
    OpenedFacts(a, b.owners, path, b.boxes[path]);
    FitsDisciplined(a, b.owners, path, b.boxes[path]);
    CallAgrees(b.fs, Write(fd, msg));
    FitsAppended(a, b.boxes[path], path[1..]);
    assert AWrite(a, fd, msg).1 == ReturnCode(Step(b.fs, Write(fd, msg)).value.1);
  }

  lemma ShutEffect(b: BrokerState, path: CString)
    requires BInv(b) && path in b.boxes && b.boxes[path].session.Wrote?
    ensures Shaped(b.fs) && Fine(ShutStep(b, path))
    ensures var c := ShutStep(b, path).value;
            && At(c, path, Closed(b.boxes[path].session.msg)) && c.boxes[path].log == b.boxes[path].log
            && Abs(c.fs).files == Abs(b.fs).files && Abs(c.fs).params == Abs(b.fs).params
            && Abs(c.fs).handles.Keys == Abs(b.fs).handles.Keys - {b.boxes[path].session.fd}
  {
    hide Tidy, Inv, Represents, NoneStranded, Abs, Good, Step, BoxOk;
    ShutOnce(b, path);
    AbsFacts(b.fs);
    BoxFacts(Abs(b.fs), b, path);
    ShutBox(Abs(b.fs), b.owners, path, b.boxes[path]);
    CallAgrees(b.fs, Close(b.boxes[path].session.fd));
  }

  // write_to_box for a text that has a place: it is recorded, its bytes are the next
  // ones of the box's file, and no handle is left over.
  lemma MessageEffect(b: BrokerState, path: CString, body: Buffer) returns (c: BrokerState)
    requires BInv(b) && At(b, path, Ready) && Terminated(body) && HasFreeHandle(b) && Placed(b, path, CStr(body))
    ensures Shaped(b.fs) && Exec(b, WholeMessage(path, body)) == Done(c) && BInv(c)
    ensures At(c, path, Ready) && c.boxes[path].log == b.boxes[path].log + [CStr(body)]
    ensures path[1..] in Abs(b.fs).files
    ensures Abs(c.fs).files == Abs(b.fs).files[path[1..] := Abs(b.fs).files[path[1..]] + CStr(body)]
    ensures Abs(c.fs).params == Abs(b.fs).params && Abs(c.fs).handles.Keys == Abs(b.fs).handles.Keys
  {
    hide BInv, Inv, Represents, NoneStranded, Connected;
    hide Exec, PublishStep, StoreStep, ShutStep, RecordStep, WholeMessage;
    hide Placed, HasFreeHandle, Terminated, CStr, Fits, Abs;
    ShapedFs(b);
    PublishEffect(b, path, body);
    var b1 := PublishStep(b, path, body).value;
    PlacedAgain(b, b1, path, CStr(body));
    PlacedFits(b1, path);
    StoreEffect(b1, path);
    var b2 := StoreStep(b1, path).value;
    ShutEffect(b2, path);
    var b3 := ShutStep(b2, path).value;
    RecordFine(b3, path);
    c := RecordStep(b3, path);
    RecordEffect(b3, path);
    ExecMessage(b, path, body, b1, b2, b3, c);
  }

  lemma RecordEffect(b: BrokerState, path: CString)
    requires path in b.boxes && b.boxes[path].session.Closed?
    ensures var c := RecordStep(b, path);
            c.fs == b.fs && At(c, path, Ready) && c.boxes[path].log == b.boxes[path].log + [b.boxes[path].session.msg]
  {
  }

  lemma PlacedAgain(b: BrokerState, c: BrokerState, path: CString, msg: Message)
    requires BInv(b) && BInv(c) && path in b.boxes && path in c.boxes && c.boxes[path].log == b.boxes[path].log
    requires Abs(c.fs).files == Abs(b.fs).files && Abs(c.fs).params == Abs(b.fs).params
    ensures Placed(b, path, msg) <==> Placed(c, path, msg)
  {
    hide Tidy, Good, Abs;
    PlacedAfterOpen(b, c, path, msg);
  }

  lemma PlacedFits(b: BrokerState, path: CString)
    requires BInv(b) && path in b.boxes && b.boxes[path].session.Opened?
    requires Placed(b, path, b.boxes[path].session.msg)
    ensures Fits(Abs(b.fs), b.boxes[path])
  {
    hide Tidy, Inv, Represents, NoneStranded, Abs, Good, HasRoom, Flatten;
    AbsFacts(b.fs);
  }

  lemma ExecMessage(b: BrokerState, path: CString, body: Buffer,
                    b1: BrokerState, b2: BrokerState, b3: BrokerState, c: BrokerState)
    requires Shaped(b.fs) && PublishStep(b, path, body) == Done(b1) && StoreStep(b1, path) == Done(b2)
    requires ShutStep(b2, path) == Done(b3) && RecordStep(b3, path) == c
    ensures Exec(b, WholeMessage(path, body)) == Done(c)
  {
    hide PublishStep, StoreStep, ShutStep, RecordStep, Exec;
    var last, three := [Record(path)], [Shut(path), Record(path)];
    assert WholeMessage(path, body) == [Publish(path, body)] + ([Store(path)] + ([Shut(path)] + (last + [])));
    ExecCons(b, Publish(path, body), [Store(path)] + ([Shut(path)] + (last + [])));
    ExecCons(b1, Store(path), [Shut(path)] + (last + []));
    ExecCons(b2, Shut(path), last + []);
    ExecCons(b3, Record(path), []);
    ExecNothing(c);
  }

  lemma ExecNothing(c: BrokerState)
    requires Shaped(c.fs)
    ensures Exec(c, []) == Done(c)
  {
  }

  // ---- a whole session ----

  // The 1024 bytes that a publisher sends behind the code of its frame.
  function BodyOf(line: Message): Buffer
    requires IsText(line)
  {
    TextFrame(OP_PUBLISHER_MESSAGE, line)[1..]
  }

  function Messages(path: CString, lines: seq<Message>): seq<Action>
    requires AllTexts(lines)
  {
    if lines == [] then []
    else
      assert IsText(lines[|lines| - 1]) && AllTexts(lines[..|lines| - 1]);
      Messages(path, lines[..|lines| - 1]) + WholeMessage(path, BodyOf(lines[|lines| - 1]))
  }

  lemma {:induction false} ExecSplit(b: BrokerState, x: seq<Action>, y: seq<Action>)
    requires Shaped(b.fs)
    ensures Exec(b, x + y) == if Exec(b, x).Done? then Exec(Exec(b, x).value, y) else Exec(b, x)
    decreases |x|
  {
    hide BStep;
    if x == [] {
      assert [] + y == y;
    } else {
      assert (x + y)[0] == x[0] && (x + y)[1..] == x[1..] + y;
      if BStep(b, x[0]).Done? {
        ExecSplit(BStep(b, x[0]).value, x[1..], y);
      }
    }
  }

  // The box's file has a place for these bytes behind the recorded ones.
  ghost predicate RoomFor(b: BrokerState, path: CString, lines: seq<Message>)
    requires BInv(b) && path in b.boxes
  {
    Placed(b, path, Flatten(lines))
  }

  // A ready publisher that sends lines for which there is room has all of them
  // recorded, in that order and as they were typed.
  lemma {:induction false} LinesRecorded(b: BrokerState, path: CString, lines: seq<Message>) returns (c: BrokerState)
    requires BInv(b) && At(b, path, Ready) && HasFreeHandle(b) && AllTexts(lines) && RoomFor(b, path, lines)
    ensures Shaped(b.fs) && Exec(b, Messages(path, lines)) == Done(c) && BInv(c)
    ensures At(c, path, Ready) && c.boxes[path].log == b.boxes[path].log + lines
    ensures path[1..] in Abs(b.fs).files
    ensures Abs(c.fs).files == Abs(b.fs).files[path[1..] := Abs(b.fs).files[path[1..]] + Flatten(lines)]
    ensures Abs(c.fs).params == Abs(b.fs).params && Abs(c.fs).handles.Keys == Abs(b.fs).handles.Keys
    decreases |lines|
  {
    hide Tidy, Good, Inv, Represents, NoneStranded, Connected;
    hide Exec, HasFreeHandle, RoomFor, Placed, Terminated, IsText, CStr, Abs;
    hide Flatten, Messages, WholeMessage, BodyOf;
    ShapedFs(b);
    if lines == [] {
      c := b;
      NoMessages(b, path);
    } else {
      var most, line := lines[..|lines| - 1], lines[|lines| - 1];
      assert lines == most + [line] && AllTexts(most) && IsText(line);
      RoomForMost(b, path, most, line);
      var d := LinesRecorded(b, path, most);
      StillFree(b, d);
      NameOfBox(b, path);
      RoomForLast(b, d, path, most, line);
      StoredBody(line);
      c := MessageEffect(d, path, BodyOf(line));
      ExecSplit(b, Messages(path, most), WholeMessage(path, BodyOf(line)));
      MessagesPush(path, most, line);
      assert b.boxes[path].log + most + [line] == b.boxes[path].log + lines;
      FlattenPush(most, line);
      var file := Abs(b.fs).files[path[1..]];
      assert file + Flatten(most) + line == file + (Flatten(most) + line);
    }
  }

  lemma NameOfBox(b: BrokerState, path: CString)
    requires BInv(b) && path in b.boxes
    ensures |path| > 1 && path[1..] in Abs(b.fs).files
  {
    hide Tidy, Inv, Represents, NoneStranded, Abs, Good, BoxOk;
    BoxFacts(Abs(b.fs), b, path);
  }

  lemma NoMessages(b: BrokerState, path: CString)
    requires BInv(b) && path in b.boxes
    ensures Shaped(b.fs) && Exec(b, Messages(path, [])) == Done(b) && b.boxes[path].log + [] == b.boxes[path].log
    ensures |path| > 1 && path[1..] in Abs(b.fs).files
    ensures Abs(b.fs).files[path[1..] := Abs(b.fs).files[path[1..]] + Flatten([])] == Abs(b.fs).files
  {
    hide Tidy, Good, Inv, Represents, NoneStranded, Connected, Abs;
    ShapedFs(b);
    NameOfBox(b, path);
    assert Abs(b.fs).files[path[1..]] + Flatten([]) == Abs(b.fs).files[path[1..]];
  }

  lemma MessagesPush(path: CString, most: seq<Message>, line: Message)
    requires AllTexts(most) && IsText(line)
    ensures AllTexts(most + [line])
    ensures Messages(path, most + [line]) == Messages(path, most) + WholeMessage(path, BodyOf(line))
  {
    hide WholeMessage, BodyOf, IsText;
    assert (most + [line])[..|most|] == most;
  }

  lemma StoredBody(line: Message)
    requires IsText(line)
    ensures Terminated(BodyOf(line)) && CStr(BodyOf(line)) == line
  {
    StoredText(line);
  }

  lemma RoomForMost(b: BrokerState, path: CString, most: seq<Message>, line: Message)
    requires BInv(b) && path in b.boxes && RoomFor(b, path, most + [line])
    ensures RoomFor(b, path, most)
  {
    hide Tidy, Inv, Represents, NoneStranded, Abs, Good, HasRoom;
    FlattenPush(most, line);
  }

  lemma StillFree(b: BrokerState, d: BrokerState)
    requires BInv(b) && BInv(d) && HasFreeHandle(b)
    requires Abs(d.fs).params == Abs(b.fs).params && Abs(d.fs).handles.Keys == Abs(b.fs).handles.Keys
    ensures HasFreeHandle(d)
  {
    hide Tidy, Inv, Represents, NoneStranded, Abs, Good;
    AbsFacts(b.fs);
    AbsFacts(d.fs);
    assert |Abs(d.fs).handles| == |Abs(d.fs).handles.Keys| && |Abs(b.fs).handles| == |Abs(b.fs).handles.Keys|;
  }

  lemma RoomForLast(b: BrokerState, d: BrokerState, path: CString, most: seq<Message>, line: Message)
    requires BInv(b) && BInv(d) && path in b.boxes && path in d.boxes && RoomFor(b, path, most + [line])
    requires d.boxes[path].log == b.boxes[path].log + most && |path| > 1 && path[1..] in Abs(b.fs).files
    requires Abs(d.fs).files == Abs(b.fs).files[path[1..] := Abs(b.fs).files[path[1..]] + Flatten(most)]
    requires Abs(d.fs).params == Abs(b.fs).params
    ensures Placed(d, path, line)
  {
    hide Tidy, Inv, Represents, NoneStranded, Abs, Good, NonEmpty;
    AbsFacts(b.fs);
    AbsFacts(d.fs);
    FlattenPush(most, line);
    FlattenBoth(b.boxes[path].log, most);
    if Flatten(most) == [] {
      assert Abs(b.fs).files[path[1..]] + [] == Abs(b.fs).files[path[1..]];
      assert Abs(d.fs).files == Abs(b.fs).files;
    }
  }

  // From nothing: a box that can be created, a publisher that registers for it, and
  // lines for which there is room. They are the box's log.
  lemma FirstSession(b: BrokerState, path: CString, lines: seq<Message>) returns (c: BrokerState)
    requires BInv(b) && path !in b.boxes && IsPath(path) && |Abs(b.fs).handles| + 2 <= b.fs.params.maxOpen
    requires path[1..] in Abs(b.fs).files || MayCreate(Abs(b.fs), path)
    requires AllTexts(lines) && |Flatten(lines)| <= b.fs.params.blockSize
    requires Flatten(lines) == [] || HasRoom(Abs(b.fs))
    ensures Shaped(b.fs) && Exec(b, [Create(path), Register(path)] + Messages(path, lines)) == Done(c) && BInv(c)
    ensures At(c, path, Ready) && c.boxes[path].log == lines && c.boxes[path].sizes == Sizes(lines)
    ensures path[1..] in Abs(c.fs).files && Abs(c.fs).files[path[1..]] == Flatten(lines)
  {
    hide BInv, Inv, Represents, NoneStranded, Connected;
    hide Exec, Messages, Placed, AllTexts, Flatten, HasRoom, MayCreate, Sizes, CreateBox, Abs;
    ShapedFs(b);
    var b1 := Created(b, path);
    SessionMoves(b1, path);
    var b2 := MoveSession(b1, path, Idle, Ready);
    ReadyFine(b1, path);
    RoomAtFirst(b, b2, path, lines);
    c := LinesRecorded(b2, path, lines);
    assert [] + lines == lines;
    ExecCreateRegister(b, path, b1, b2, Messages(path, lines));
    WholeFile(c, path);
  }

  lemma Created(b: BrokerState, path: CString) returns (c: BrokerState)
    requires BInv(b) && path !in b.boxes && IsPath(path) && |Abs(b.fs).handles| + 2 <= b.fs.params.maxOpen
    requires path[1..] in Abs(b.fs).files || MayCreate(Abs(b.fs), path)
    ensures Shaped(b.fs) && CreateBox(b, path) == Done(c) && BInv(c)
    ensures At(c, path, Idle) && c.boxes[path].log == [] && HasFreeHandle(c)
    ensures Abs(c.fs).params == Abs(b.fs).params && (HasRoom(Abs(b.fs)) ==> HasRoom(Abs(c.fs)))
  {
    hide Tidy, Inv, Represents, NoneStranded, Abs, Good, Step, AOpen;
    AbsFacts(b.fs);
    CreateExact(b, path);
    c := CreateBox(b, path).value;
    Opening(b, path, TFS_O_CREAT, Creator(path));
    AbsFacts(c.fs);
    SameNonEmpty(Abs(b.fs), Abs(c.fs), path[1..]);
  }

  lemma SameNonEmpty(a: AFs, a': AFs, nm: Name)
    requires a'.files == a.files || (nm !in a.files && a'.files == a.files[nm := []])
    ensures NonEmpty(a'.files) == NonEmpty(a.files)
  {
  }

  lemma ReadyFine(b: BrokerState, path: CString)
    requires BInv(b) && At(b, path, Idle)
    ensures var c := MoveSession(b, path, Idle, Ready); BInv(c) && (HasFreeHandle(b) ==> HasFreeHandle(c))
  {
    hide Tidy, Good, Abs;
    SessionFine(b, path, Ready);
  }

  lemma RoomAtFirst(b: BrokerState, c: BrokerState, path: CString, lines: seq<Message>)
    requires BInv(b) && BInv(c) && path in c.boxes && c.boxes[path].log == []
    requires Abs(c.fs).params == Abs(b.fs).params && (HasRoom(Abs(b.fs)) ==> HasRoom(Abs(c.fs)))
    requires |Flatten(lines)| <= b.fs.params.blockSize && (Flatten(lines) == [] || HasRoom(Abs(b.fs)))
    ensures RoomFor(c, path, lines)
  {
    hide Tidy, Inv, Represents, NoneStranded, Abs, Good, HasRoom;
    AbsFacts(b.fs);
    AbsFacts(c.fs);
  }

  lemma ExecCreateRegister(b: BrokerState, path: CString, b1: BrokerState, b2: BrokerState, rest: seq<Action>)
    requires Shaped(b.fs) && CreateBox(b, path) == Done(b1) && BStep(b1, Register(path)) == Done(b2)
    ensures Exec(b, [Create(path), Register(path)] + rest) == Exec(b2, rest)
  {
    hide CreateBox, Exec, MoveSession;
    assert [Create(path), Register(path)] + rest == [Create(path)] + ([Register(path)] + rest);
    ExecCons(b, Create(path), [Register(path)] + rest);
    ExecCons(b1, Register(path), rest);
  }

  lemma WholeFile(c: BrokerState, path: CString)
    requires BInv(c) && At(c, path, Ready)
    ensures path[1..] in Abs(c.fs).files && Abs(c.fs).files[path[1..]] == Flatten(c.boxes[path].log)
    ensures c.boxes[path].sizes == Sizes(c.boxes[path].log)
  {
    hide Tidy, Inv, Represents, NoneStranded, Abs, Good, BoxOk, Flatten, Sizes;
    BoxFacts(Abs(c.fs), c, path);
    BoxContents(Abs(c.fs), c.owners, path, c.boxes[path]);
    assert Flatten(c.boxes[path].log) + [] == Flatten(c.boxes[path].log);
  }
}
