// What the broker's boxes keep in every interleaving.
module BoxSafety {
  import opened Prelude
  import opened Bytes
  import opened M = FsModel
  import opened FsAbstract
  import opened FsInvariant
  import opened FsWriting
  import opened FsDirectory
  import opened FsRefinement
  import opened FsSimulation
  import opened BoxLog
  import opened Framing
  import opened BoxProtocol
  import opened BoxFrames

  // The step was taken and led to a good state.
  ghost predicate Fine(r: Outcome<BrokerState>) {
    r.Done? && BInv(r.value)
  }

  lemma OpenDisciplined(a: AFs, path: CString, mode: Mode)
    requires Connected(a) && !mode.trunc
    ensures Disciplined(a, Open(path, mode))
  {
  }

  lemma AbsFacts(s: Fs)
    requires Tidy(s)
    ensures Shaped(s) && Connected(Abs(s)) && Abs(s).params == s.params && s.params.blockSize > 0
    ensures NoneStranded(Abs(s)) && Inv(s) && Represents(s, Abs(s))
  {
  }

  lemma ShapedFs(b: BrokerState)
    requires BInv(b)
    ensures Shaped(b.fs)
  {
    hide Good;
    AbsFacts(b.fs);
  }

  // An open without truncation, seen from the broker.
  lemma Opening(b: BrokerState, path: CString, mode: Mode, who: Owner)
    requires BInv(b) && !mode.trunc
    ensures Step(b.fs, Open(path, mode)).Done?
    ensures var (fs, reply) := Step(b.fs, Open(path, mode)).value;
            var (a', fd) := AOpen(Abs(b.fs), path, mode);
            && reply == Code(fd) && Tidy(fs) && Abs(fs) == a'
            && OneMore(Abs(b.fs), a', fd, NameOf(path), StartOf(Abs(b.fs), path, mode))
            && (fd >= 0 ==> ValidPathname(path)) && (!mode.creat ==> a'.files == Abs(b.fs).files)
            && Good(a', WithHandle(b, fs, fd, who))
  {
    hide Tidy, Inv, Represents, NoneStranded, Step, Abs, Disciplined, Good, Connected, AOpen;
    AbsFacts(b.fs);
    OpenDisciplined(Abs(b.fs), path, mode);
    CallAgrees(b.fs, Open(path, mode));
    OpenFacts(Abs(b.fs), path, mode);
    var (a', fd) := AOpen(Abs(b.fs), path, mode);
    GoodAfterOpen(Abs(b.fs), b, a', Step(b.fs, Open(path, mode)).value.0, fd, NameOf(path),
                  StartOf(Abs(b.fs), path, mode), who);
  }

  // Where a handle opened without truncation stands.
  function StartOf(a: AFs, path: CString, mode: Mode): nat {
    if mode.append && NameOf(path) in a.files then |a.files[NameOf(path)]| else 0
  }

  lemma CreateFine(b: BrokerState, path: CString)
    requires BInv(b)
    ensures Shaped(b.fs) && Fine(CreateBox(b, path))
  {
    hide Tidy, Inv, Represents, NoneStranded;
    hide Step, Abs, Good, Connected, AOpen, OneMore, ValidPathname, BoxOk, WithHandle, SetBox;
    AbsFacts(b.fs);
    if path !in b.boxes {
      Opening(b, path, TFS_O_CREAT, Creator(path));
      var (fs, reply) := Step(b.fs, Open(path, TFS_O_CREAT)).value;
      var (a', fd) := AOpen(Abs(b.fs), path, TFS_O_CREAT);
      if fd >= 0 {
        NewBox(Abs(b.fs), b, a', fs, path, fd);
        BoxesChanged(a', WithHandle(b, fs, fd, Creator(path)), path, Box(fd, [], [], Idle));
      }
    }
  }

  // The file of a new box is empty, even if it existed before.
  lemma NewBox(a: AFs, b: BrokerState, a': AFs, fs: Fs, path: CString, fd: nat)
    requires Good(a, b) && path !in b.boxes && ValidPathname(path) && OneMore(a, a', fd, NameOf(path), 0)
    ensures BoxOk(a', WithHandle(b, fs, fd, Creator(path)).owners, path, Box(fd, [], [], Idle))
  {
    hide BoxOk, ReplayOk;
    PathName(path);
    assert path[1..] in a.files && a.files[path[1..]] != [] ==> HasBox(b.boxes, path[1..]);
    EmptyBox(a', WithHandle(b, fs, fd, Creator(path)).owners, path, fd);
  }

  lemma EmptyBox(a: AFs, owners: map<nat, Owner>, path: CString, fd: nat)
    requires ValidPathname(path) && path[1..] in a.files && a.files[path[1..]] == []
    requires Holds(a, owners, fd, Creator(path), path[1..])
    ensures BoxOk(a, owners, path, Box(fd, [], [], Idle))
  {
  }

  // ---- the publisher's steps ----

  lemma BoxFacts(a: AFs, b: BrokerState, path: CString)
    requires Good(a, b) && path in b.boxes
    ensures BoxOk(a, b.owners, path, b.boxes[path]) && ValidPathname(path) && path[1..] in a.files
  {
  }

  lemma GoodIgnoresFs(a: AFs, b: BrokerState, fs: Fs)
    requires Good(a, b)
    ensures Good(a, b.(fs := fs))
  {
  }

  // Steps that only change the session and do not call the file system.
  lemma SessionFine(b: BrokerState, path: CString, session: Session)
    requires BInv(b) && path in b.boxes && (session.Idle? || session.Ready? || session.Dead?)
    requires Pending(b.boxes[path].session) == []
    ensures BInv(SetSession(b, path, session))
  {
    hide Tidy, Abs, Good, BoxOk;
    BoxFacts(Abs(b.fs), b, path);
    GoodSession(Abs(b.fs), b, path, session);
  }

  lemma PublishFine(b: BrokerState, path: CString, body: Buffer)
    requires BInv(b)
    ensures Shaped(b.fs) && (Fine(PublishStep(b, path, body)) <==> Allowed(b, Publish(path, body)))
  {
    hide Tidy, Inv, Represents, NoneStranded, Step, Abs, Good, AOpen, WithHandle, SetSession, Terminated, IsText;
    AbsFacts(b.fs);
    if At(b, path, Ready) && Terminated(body) {
      var msg := ReceivedText(body).value;
      Opening(b, path, TFS_O_APPEND, Publisher(path));
      var (fs, reply) := Step(b.fs, Open(path, TFS_O_APPEND)).value;
      var (a', fd) := AOpen(Abs(b.fs), path, TFS_O_APPEND);
      SessionOpened(Abs(b.fs), b, a', fs, path, fd, msg);
    }
  }

  lemma SessionOpened(a: AFs, b: BrokerState, a': AFs, fs: Fs, path: CString, fd: int, msg: Message)
    requires Good(a, b) && At(b, path, Ready) && Good(a', WithHandle(b, fs, fd, Publisher(path))) && IsText(msg)
    requires OneMore(a, a', fd, NameOf(path), StartOf(a, path, TFS_O_APPEND))
    ensures Good(a', SetSession(WithHandle(b, fs, fd, Publisher(path)), path, if fd < 0 then Dead else Opened(fd, msg)))
  {
    hide Good, BoxOk, OneMore, SessionOk, ValidPathname, WithHandle, SetSession, StartOf;
    BoxFacts(a, b, path);
    AtTheEnd(a, b, a', fs, path, fd, msg);
    GoodSession(a', WithHandle(b, fs, fd, Publisher(path)), path, if fd < 0 then Dead else Opened(fd, msg));
  }

  // A handle opened for a message stands behind the recorded ones.
  lemma AtTheEnd(a: AFs, b: BrokerState, a': AFs, fs: Fs, path: CString, fd: int, msg: Message)
    requires path in b.boxes && BoxOk(a, b.owners, path, b.boxes[path]) && b.boxes[path].session.Ready?
    requires OneMore(a, a', fd, NameOf(path), StartOf(a, path, TFS_O_APPEND))
    ensures ValidPathname(path)
    ensures SessionOk(a', WithHandle(b, fs, fd, Publisher(path)).owners, path,
                      b.boxes[path].(session := if fd < 0 then Dead else Opened(fd, msg)))
  {
    hide Flatten;
    assert a.files[path[1..]] == Flatten(b.boxes[path].log);
  }

  lemma OpenedFacts(a: AFs, owners: map<nat, Owner>, path: CString, box: Box)
    requires BoxOk(a, owners, path, box) && box.session.Opened?
    ensures var fd := box.session.fd;
            && ValidPathname(path) && HasFile(a, fd) && a.handles[fd].file.value == path[1..] && path[1..] in a.files
            && a.handles[fd].offset == |a.files[path[1..]]| == |Flatten(box.log)|
  {
    hide Flatten;
    assert a.files[path[1..]] == Flatten(box.log);
  }

  // Fits is the discipline of tfs_write, told from the box.
  lemma FitsDisciplined(a: AFs, owners: map<nat, Owner>, path: CString, box: Box)
    requires BoxOk(a, owners, path, box) && box.session.Opened? && Connected(a)
    ensures var Opened(fd, msg) := box.session;
            && fd in a.handles && a.handles[fd].offset == |Flatten(box.log)|
            && (Fits(a, box) <==> Disciplined(a, Write(fd, msg)))
  {
    hide Flatten, BoxOk, HasRoom;
    OpenedFacts(a, owners, path, box);
  }

  lemma StoreFine(b: BrokerState, path: CString)
    requires BInv(b)
    ensures Shaped(b.fs) && (Fine(StoreStep(b, path)) <==> Allowed(b, Store(path)))
  {
    hide Tidy, Inv, Represents, NoneStranded, Step, Abs, Good, Connected, ValidPathname, BoxOk, Disciplined, Fits;
    AbsFacts(b.fs);
    if path in b.boxes && b.boxes[path].session.Opened? {
      BoxFacts(Abs(b.fs), b, path);
      FitsDisciplined(Abs(b.fs), b.owners, path, b.boxes[path]);
      if Fits(Abs(b.fs), b.boxes[path]) {
        FittingFine(b, path);
      } else {
        SpillIsNotFine(b.fs, b.boxes[path].session.fd, b.boxes[path].session.msg);
      }
    }
  }

  lemma FittingFine(b: BrokerState, path: CString)
    requires BInv(b) && path in b.boxes && b.boxes[path].session.Opened? && Fits(Abs(b.fs), b.boxes[path])
    ensures Shaped(b.fs) && Fine(StoreStep(b, path))
  {
    hide Tidy, Inv, Represents, NoneStranded;
    hide Step, Abs, Good, Connected, ValidPathname, BoxOk, Disciplined, Fits, Appended, AWrite, SetSession;
    AbsFacts(b.fs);
    var a := Abs(b.fs);
    var Opened(fd, msg) := b.boxes[path].session;
    BoxFacts(a, b, path);
    OpenedFacts(a, b.owners, path, b.boxes[path]);
    FitsDisciplined(a, b.owners, path, b.boxes[path]);
    CallAgrees(b.fs, Write(fd, msg));
    FitsAppended(a, b.boxes[path], path[1..]);
    var fs := Step(b.fs, Write(fd, msg)).value.0;
    if AWrite(a, fd, msg).1 < 0 {
      GoodIgnoresFs(a, b, fs);
      SessionFine(b.(fs := fs), path, Dead);
    } else {
      GoodStored(a, b, Abs(fs), fs, path);
    }
  }

  lemma FitsAppended(a: AFs, box: Box, nm: Name)
    requires Connected(a) && a.params.blockSize > 0 && box.session.Opened? && Fits(a, box)
    requires var fd := box.session.fd;
             && HasFile(a, fd) && a.handles[fd].file.value == nm
             && a.handles[fd].offset == |FileOf(a, fd)| == |Flatten(box.log)|
    ensures var Opened(fd, msg) := box.session;
            var (a', n) := AWrite(a, fd, msg);
            (n == -1 && a' == a) || (n == |msg| && Appended(a, a', fd, nm, msg))
  {
    hide AWrite, Appended, Flatten, HasRoom;
    MessageAppended(a, box.session.fd, box.session.msg);
  }

  // A write that the discipline forbids leaves no good file system behind: the
  // file is larger than its block.
  lemma SpillIsNotFine(s: Fs, fd: nat, msg: Message)
    requires Tidy(s) && !Disciplined(Abs(s), Write(fd, msg))
    ensures Step(s, Write(fd, msg)).Done? ==>
              var t := Step(s, Write(fd, msg)).value.0;
              && fd < |t.open| && 0 <= t.open[fd].inumber < |t.inodes|
              && t.inodes[t.open[fd].inumber].size > t.params.blockSize && !Tidy(t)
  {
    hide Tidy, Abs, Represents, Connected, TfsWrite, HasRoom, AWrite;
    AbsFacts(s);
    WriteOverflows(s, Abs(s), fd, msg);
    WriteKeepsHandles(s, Abs(s), fd, msg);
    InvShaped(s);
    if Step(s, Write(fd, msg)).Done? {
      OversizeIsNotTidy(Step(s, Write(fd, msg)).value.0, fd);
    }
  }

  lemma WriteKeepsHandles(s: Fs, a: AFs, fd: nat, msg: Message)
    requires Inv(s) && Represents(s, a) && fd in a.handles
    ensures TfsWrite(s, fd, msg).Done? ==> Live(TfsWrite(s, fd, msg).value.0.openTaken, fd)
  {
    LiveHandles(s, a, fd);
  }

  lemma OversizeIsNotTidy(t: Fs, fd: nat)
    requires fd < |t.open| && Live(t.openTaken, fd) && 0 <= t.open[fd].inumber < |t.inodes|
    requires t.inodes[t.open[fd].inumber].size > t.params.blockSize
    ensures !Tidy(t)
  {
  }

  lemma ShutFine(b: BrokerState, path: CString)
    requires BInv(b)
    ensures Shaped(b.fs) && Fine(ShutStep(b, path))
  {
    hide Tidy, Inv, Represents, NoneStranded, Step, Abs, Good, Connected, ValidPathname, BoxOk, SetSession;
    AbsFacts(b.fs);
    if path in b.boxes && b.boxes[path].session.Wrote? {
      var Wrote(fd, msg) := b.boxes[path].session;
      BoxFacts(Abs(b.fs), b, path);
      ShutBox(Abs(b.fs), b.owners, path, b.boxes[path]);
      CallAgrees(b.fs, Close(fd));
      var (fs, reply) := Step(b.fs, Close(fd)).value;
      GoodShut(Abs(b.fs), b, fs, path);
    }
  }

  lemma RecordFine(b: BrokerState, path: CString)
    requires BInv(b)
    ensures BInv(RecordStep(b, path))
  {
    hide Tidy, Abs, Good, BoxOk, SetBox;
    AbsFacts(b.fs);
    if path in b.boxes && b.boxes[path].session.Closed? {
      var box, msg := b.boxes[path], b.boxes[path].session.msg;
      BoxFacts(Abs(b.fs), b, path);
      RecordedBox(Abs(b.fs), b.owners, path, box);
      BoxesChanged(Abs(b.fs), b, path, Box(box.fd, box.sizes + [|msg|], box.log + [msg], Ready));
    }
  }

  lemma RecordedBox(a: AFs, owners: map<nat, Owner>, path: CString, box: Box)
    requires BoxOk(a, owners, path, box) && box.session.Closed?
    ensures var msg := box.session.msg;
            BoxOk(a, owners, path, Box(box.fd, box.sizes + [|msg|], box.log + [msg], Ready))
  {
    hide Flatten, Sizes;
    FlattenPush(box.log, box.session.msg);
  }

  // ---- the subscriber's steps ----

  lemma SubscribeFine(b: BrokerState, id: nat, path: CString)
    requires BInv(b)
    ensures Shaped(b.fs) && Fine(SubscribeStep(b, id, path))
  {
    hide Tidy, Inv, Represents, NoneStranded;
    hide Step, Abs, Good, Connected, AOpen, ValidPathname, BoxOk, OneMore, ReplayOk, WithHandle, SetReplay;
    AbsFacts(b.fs);
    if id !in b.replays && path in b.boxes {
      Opening(b, path, TFS_O_APPEND, Replayer(id));
      var (fs, reply) := Step(b.fs, Open(path, TFS_O_APPEND)).value;
      var (a', fd) := AOpen(Abs(b.fs), path, TFS_O_APPEND);
      BoxFacts(Abs(b.fs), b, path);
      NewReplay(Abs(b.fs), b, a', fs, id, path, fd);
      GoodReplay(a', WithHandle(b, fs, fd, Replayer(id)), id, if fd < 0 then Failed else Begun(path, fd));
    }
  }

  lemma NewReplay(a: AFs, b: BrokerState, a': AFs, fs: Fs, id: nat, path: CString, fd: int)
    requires path in b.boxes && ValidPathname(path)
    requires OneMore(a, a', fd, NameOf(path), StartOf(a, path, TFS_O_APPEND))
    ensures ReplayOk(a', WithHandle(b, fs, fd, Replayer(id)).owners, b.boxes, id,
                     if fd < 0 then Failed else Begun(path, fd))
  {
  }

  lemma ReplayFacts(a: AFs, b: BrokerState, id: nat)
    requires Good(a, b) && id in b.replays
    ensures ReplayOk(a, b.owners, b.boxes, id, b.replays[id])
  {
  }

  lemma RestartFine(b: BrokerState, id: nat, junk: Buffer)
    requires BInv(b)
    ensures Shaped(b.fs) && (Fine(RestartStep(b, id, junk)) <==> Allowed(b, Restart(id, junk)))
  {
    hide Tidy, Inv, Represents, NoneStranded, Step, Abs, Good, Connected, Disciplined, ReplayOk, SetReplay;
    AbsFacts(b.fs);
    if id in b.replays && b.replays[id].Begun? {
      var Begun(path, fd) := b.replays[id];
      var a := Abs(b.fs);
      ReplayFacts(a, b, id);
      BegunFacts(a, b, id, junk);
      if a.handles[fd].offset > 0 {
        RewindDisciplined(a, fd);
        CallAgrees(b.fs, Rewind(fd));
        var fs := Step(b.fs, Rewind(fd)).value.0;
        GoodMoved(a, b, fs, id, Reading(path, fd, junk, []), 0);
      } else {
        RewindIsNotFine(b.fs, fd);
      }
    }
  }

  lemma BegunFacts(a: AFs, b: BrokerState, id: nat, junk: Buffer)
    requires id in b.replays && ReplayOk(a, b.owners, b.boxes, id, b.replays[id]) && b.replays[id].Begun?
    ensures var Begun(path, fd) := b.replays[id];
            && path in b.boxes && |path| > 0 && Holds(a, b.owners, fd, Replayer(id), path[1..])
            && ReplayOk(MoveTo(a, fd, 0), b.owners, b.boxes, id, Reading(path, fd, junk, []))
  {
  }

  lemma RewindDisciplined(a: AFs, fd: nat)
    requires Connected(a) && fd in a.handles
    ensures Disciplined(a, Rewind(fd)) <==> a.handles[fd].offset > 0
  {
  }

  // Rewinding a handle at 0 leaves g_library_mutex locked for good.
  lemma RewindIsNotFine(s: Fs, fd: nat)
    requires Tidy(s) && fd in Abs(s).handles && Abs(s).handles[fd].offset == 0
    ensures Step(s, Rewind(fd)).Done? && Step(s, Rewind(fd)).value.1 == Code(0)
    ensures Step(s, Rewind(fd)).value.0.locked && !Tidy(Step(s, Rewind(fd)).value.0)
    ensures forall op :: Step(Step(s, Rewind(fd)).value.0, op) == Blocked
  {
    hide Abs, Represents, Connected;
    AbsFacts(s);
    LiveHandles(s, Abs(s), fd);
    RewindKeepsLock(s, fd);
  }

  lemma FetchFine(b: BrokerState, id: nat)
    requires BInv(b)
    ensures Shaped(b.fs) && (Fine(FetchStep(b, id)) <==> Allowed(b, Fetch(id)))
  {
    hide Tidy, Inv, Represents, NoneStranded;
    hide Step, Abs, Good, BoxOk, ReplayOk, Flatten, SetReplay, ReplayedText, SentFor;
    AbsFacts(b.fs);
    if id in b.replays && b.replays[id].Reading? {
      var Reading(path, fd, junk, sent) := b.replays[id];
      var a := Abs(b.fs);
      ReplayFacts(a, b, id);
      ReadingFacts(a, b, id);
      BoxFacts(a, b, path);
      BoxContents(a, b.owners, path, b.boxes[path]);
      if |sent| < |b.boxes[path].log| {
        NextTextFacts(a, b, id);
        NextFine(b, id);
      } else if sent != [] {
        FinishedFacts(a, b, id);
        GoodReplay(a, b, id, Finished(path, fd, junk, sent));
      }
    }
  }

  // The text that a replay sends next.
  function NextText(b: BrokerState, id: nat): (r: Outcome<seq<byte>>)
    requires id in b.replays && b.replays[id].Reading? && b.replays[id].path in b.boxes
    requires |b.replays[id].sent| < |b.boxes[b.replays[id].path].log|
  {
    var Reading(path, fd, junk, sent) := b.replays[id];
    ReplayedText(BufferFor(junk, |sent|), b.boxes[path].log[|sent|])
  }

  // Only the first message can run out of its buffer; the others are read into
  // zeroes and are sent as they were stored.
  lemma NextTextFacts(a: AFs, b: BrokerState, id: nat)
    requires id in b.replays && b.replays[id].Reading? && b.replays[id].path in b.boxes
    requires |b.replays[id].sent| < |b.boxes[b.replays[id].path].log|
    requires BoxOk(a, b.owners, b.replays[id].path, b.boxes[b.replays[id].path])
    ensures var Reading(path, fd, junk, sent) := b.replays[id];
            && (sent != [] ==> NextText(b, id) == Done(b.boxes[path].log[|sent|]))
            && (sent == [] ==> (NextText(b, id).Done? <==> NulFrom(junk, |b.boxes[path].log[0]|)))
            && forall text :: NextText(b, id) == Done(text) ==>
                 if sent == [] then RunsOn(junk, b.boxes[path].log[0], text) else text == b.boxes[path].log[|sent|]
  {
    hide Flatten, Holds, SessionOk, ReplayedText, RunsOn, NulFrom;
    var Reading(path, fd, junk, sent) := b.replays[id];
    ReplayedExact(BufferFor(junk, |sent|), b.boxes[path].log[|sent|]);
    forall text | NextText(b, id) == Done(text)
      ensures RunsOn(BufferFor(junk, |sent|), b.boxes[path].log[|sent|], text)
    {
      ReplayedExactly(BufferFor(junk, |sent|), b.boxes[path].log[|sent|], text);
    }
    ReplayedExactly(BufferFor(junk, |sent|), b.boxes[path].log[|sent|], []);
  }

  lemma NextFine(b: BrokerState, id: nat)
    requires BInv(b) && id in b.replays && b.replays[id].Reading?
    requires var Reading(path, fd, junk, sent) := b.replays[id]; path in b.boxes && |sent| < |b.boxes[path].log|
    ensures Shaped(b.fs) && (Fine(FetchStep(b, id)) <==> NextText(b, id).Done?)
    ensures b.replays[id].sent != [] ==> NextText(b, id).Done?
    ensures NextText(b, id).Done? ==>
              FetchStep(b, id).value == SetReplay(b.(fs := FetchStep(b, id).value.fs), id, NextReading(b, id))
    ensures !NextText(b, id).Done? ==> FetchStep(b, id) == Wild
  {
    hide Tidy, Inv, Represents, NoneStranded;
    hide Step, Abs, Good, BoxOk, ReplayOk, Flatten, Disciplined, ARead, Connected, SetReplay, ReplayedText;
    hide SentFor, HasFile;
    AbsFacts(b.fs);
    var Reading(path, fd, junk, sent) := b.replays[id];
    var a, box := Abs(b.fs), b.boxes[path];
    ReplayFacts(a, b, id);
    ReadingFacts(a, b, id);
    BoxFacts(a, b, path);
    BoxContents(a, b.owners, path, box);
    NextTextFacts(a, b, id);
    ReadFacts(a, fd, box.log, Pending(box.session), |sent|);
    CallAgrees(b.fs, Read(fd, box.sizes[|sent|]));
    if NextText(b, id).Done? {
      var fs := Step(b.fs, Read(fd, box.sizes[|sent|])).value.0;
      NextReadingOk(a, b, id);
      GoodMoved(a, b, fs, id, NextReading(b, id), |Flatten(box.log[..|sent| + 1])|);
    }
  }

  // A replay that has sent one more text.
  function NextReading(b: BrokerState, id: nat): (r: Replay)
    requires id in b.replays && b.replays[id].Reading? && b.replays[id].path in b.boxes
    requires |b.replays[id].sent| < |b.boxes[b.replays[id].path].log| && NextText(b, id).Done?
    ensures r.Reading?
  {
    var Reading(path, fd, junk, sent) := b.replays[id];
    Reading(path, fd, junk, sent + [NextText(b, id).value])
  }

  lemma ReadingFacts(a: AFs, b: BrokerState, id: nat)
    requires id in b.replays && ReplayOk(a, b.owners, b.boxes, id, b.replays[id]) && b.replays[id].Reading?
    ensures var Reading(path, fd, junk, sent) := b.replays[id];
            && path in b.boxes && |path| > 0 && Holds(a, b.owners, fd, Replayer(id), path[1..])
            && |sent| <= |b.boxes[path].log| && SentFor(junk, b.boxes[path].log, sent)
            && a.handles[fd].offset == |Flatten(b.boxes[path].log[..|sent|])|
  {
    hide Flatten;
  }

  lemma FinishedFacts(a: AFs, b: BrokerState, id: nat)
    requires id in b.replays && ReplayOk(a, b.owners, b.boxes, id, b.replays[id]) && b.replays[id].Reading?
    ensures var Reading(path, fd, junk, sent) := b.replays[id];
            ReplayOk(a, b.owners, b.boxes, id, Finished(path, fd, junk, sent))
  {
  }

  lemma NextReadingOk(a: AFs, b: BrokerState, id: nat)
    requires id in b.replays && ReplayOk(a, b.owners, b.boxes, id, b.replays[id]) && b.replays[id].Reading?
    requires |b.replays[id].sent| < |b.boxes[b.replays[id].path].log| && NextText(b, id).Done?
    requires BoxOk(a, b.owners, b.replays[id].path, b.boxes[b.replays[id].path])
    ensures var next, log := NextReading(b, id), b.boxes[b.replays[id].path].log;
            && next.fd in a.handles
            && ReplayOk(MoveTo(a, next.fd, |Flatten(log[..|next.sent|])|), b.owners, b.boxes, id, next)
  {
    hide Flatten, NextText, RunsOn, NulFrom, BoxOk;
    NextTextFacts(a, b, id);
  }

  lemma BoxContents(a: AFs, owners: map<nat, Owner>, path: CString, box: Box)
    requires BoxOk(a, owners, path, box)
    ensures box.sizes == Sizes(box.log) && ValidPathname(path) && path[1..] in a.files
    ensures a.files[path[1..]] == Flatten(box.log) + Pending(box.session) && AllTexts(box.log)
  {
  }
}
