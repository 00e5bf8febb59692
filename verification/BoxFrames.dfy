// How the broker's invariant follows each kind of change of the file system that
// its steps make. Everything here is about the documented file system only.
module BoxFrames {
  import opened Prelude
  import opened Bytes
  import opened M = FsModel
  import opened FsAbstract
  import opened FsInvariant
  import opened FsSimulation
  import opened BoxLog
  import opened Framing
  import opened BoxProtocol

  lemma PathName(path: CString)
    requires ValidPathname(path)
    ensures path == [SLASH] + path[1..]
  {
  }

  // A call under the discipline, as a fact about the documented file system.
  lemma CallAgrees(s: Fs, op: Op)
    requires Tidy(s) && Disciplined(Abs(s), op)
    ensures Step(s, op).Done? && Tidy(Step(s, op).value.0) && Connected(Abs(s))
    ensures (Abs(Step(s, op).value.0), Step(s, op).value.1) == AStep(Abs(s), op)
  {
    TidyExact(s, op);
  }

  // From a to a', a handle fd is new and belongs to a file; nothing else changed,
  // except that an empty file may have appeared.
  ghost predicate OneMore(a: AFs, a': AFs, fd: int, nm: Name, offset: nat) {
    && a'.params == a.params
    && (a'.files == a.files || (nm !in a.files && a'.files == a.files[nm := []]))
    && (fd < 0 ==> a'.handles == a.handles)
    && (fd >= 0 ==> nm in a'.files && fd !in a.handles && a'.handles == a.handles[fd := Handle(Some(nm), offset)])
  }

  function NameOf(path: CString): Name {
    if path == [] then [] else path[1..]
  }

  lemma OpenFacts(a: AFs, path: CString, mode: Mode)
    requires !mode.trunc
    ensures var (a', fd) := AOpen(a, path, mode);
            var nm := NameOf(path);
            && OneMore(a, a', fd, nm, if mode.append && nm in a.files then |a.files[nm]| else 0)
            && (fd >= 0 ==> ValidPathname(path))
            && (!mode.creat ==> a'.files == a.files)
  {
  }

  // Whoever held a handle still holds it, and it stands where it stood.
  ghost predicate Keeps(a: AFs, owners: map<nat, Owner>, a': AFs, owners': map<nat, Owner>, who: Owner) {
    forall fd :: fd in owners && owners[fd] == who && fd in a.handles ==>
      fd in owners' && owners'[fd] == who && fd in a'.handles && a'.handles[fd] == a.handles[fd]
  }

  lemma BoxFrame(a: AFs, owners: map<nat, Owner>, a': AFs, owners': map<nat, Owner>, path: CString, box: Box)
    requires BoxOk(a, owners, path, box)
    requires Keeps(a, owners, a', owners', Creator(path)) && Keeps(a, owners, a', owners', Publisher(path))
    requires path[1..] in a'.files && a'.files[path[1..]] == a.files[path[1..]]
    ensures BoxOk(a', owners', path, box)
  {
  }

  lemma ReplayFrame(a: AFs, owners: map<nat, Owner>, a': AFs, owners': map<nat, Owner>,
                    boxes: map<CString, Box>, id: nat, replay: Replay)
    requires ReplayOk(a, owners, boxes, id, replay)
    requires Keeps(a, owners, a', owners', Replayer(id))
    ensures ReplayOk(a', owners', boxes, id, replay)
  {
  }

  lemma GoodAfterOpen(a: AFs, b: BrokerState, a': AFs, fs: Fs, fd: int, nm: Name, offset: nat, who: Owner)
    requires Good(a, b) && OneMore(a, a', fd, nm, offset)
    ensures Good(a', WithHandle(b, fs, fd, who))
  {
    hide BoxOk, ReplayOk, HasBox;
    var owners' := WithHandle(b, fs, fd, who).owners;
    forall other | true ensures Keeps(a, b.owners, a', owners', other) {
    }
    forall path | path in b.boxes ensures BoxOk(a', owners', path, b.boxes[path]) {
      BoxFile(a, b.owners, path, b.boxes[path]);
      BoxFrame(a, b.owners, a', owners', path, b.boxes[path]);
    }
    forall id | id in b.replays ensures ReplayOk(a', owners', b.boxes, id, b.replays[id]) {
      ReplayFrame(a, b.owners, a', owners', b.boxes, id, b.replays[id]);
    }
  }

  lemma BoxFile(a: AFs, owners: map<nat, Owner>, path: CString, box: Box)
    requires BoxOk(a, owners, path, box)
    ensures ValidPathname(path) && path[1..] in a.files
  {
  }

  lemma GoodSession(a: AFs, b: BrokerState, path: CString, session: Session)
    requires Good(a, b) && path in b.boxes
    requires ValidPathname(path) && SessionOk(a, b.owners, path, b.boxes[path].(session := session))
    requires Pending(session) == Pending(b.boxes[path].session) && AllTexts(InHand(session))
    ensures Good(a, SetSession(b, path, session))
  {
    hide Holds, Flatten, SessionOk, Pending;
    BoxesChanged(a, b, path, b.boxes[path].(session := session));
  }

  // One box changes, and its log at most grows.
  lemma BoxesChanged(a: AFs, b: BrokerState, path: CString, box: Box)
    requires Good(a, b) && BoxOk(a, b.owners, path, box)
    requires path in b.boxes ==> b.boxes[path].log <= box.log
    ensures Good(a, SetBox(b, path, box))
  {
    hide BoxOk, Holds, Flatten;
    var boxes' := b.boxes[path := box];
    forall id | id in b.replays ensures ReplayOk(a, b.owners, boxes', id, b.replays[id]) {
      assert ReplayOk(a, b.owners, b.boxes, id, b.replays[id]);
      ReplayOfGrown(a, b.owners, b.boxes, path, box, id, b.replays[id]);
    }
    forall nm | nm in a.files && a.files[nm] != [] ensures HasBox(boxes', nm) {
      assert HasBox(b.boxes, nm);
      var p :| p in b.boxes && p == [SLASH] + nm;
      assert p in boxes';
    }
  }

  lemma ReplayOfGrown(a: AFs, owners: map<nat, Owner>, boxes: map<CString, Box>, path: CString, box: Box,
                      id: nat, replay: Replay)
    requires ReplayOk(a, owners, boxes, id, replay) && (path in boxes ==> boxes[path].log <= box.log)
    ensures ReplayOk(a, owners, boxes[path := box], id, replay)
  {
    hide Holds, Flatten, ReplayedText;
    if !replay.Failed? && !replay.Begun? && replay.path == path {
      var n := |replay.sent|;
      assert boxes[path].log[..n] == box.log[..n];
    }
  }

  lemma GoodReplay(a: AFs, b: BrokerState, id: nat, replay: Replay)
    requires Good(a, b) && ReplayOk(a, b.owners, b.boxes, id, replay)
    ensures Good(a, SetReplay(b, id, replay))
  {
    hide BoxOk, ReplayOk, HasBox;
  }

  // ---- storing a message ----

  lemma MessageAppended(a: AFs, fd: nat, msg: Message)
    requires Connected(a) && HasFile(a, fd) && a.params.blockSize > 0
    requires a.handles[fd].offset == |FileOf(a, fd)|
    requires || msg == []
             || a.handles[fd].offset + |msg| <= a.params.blockSize
             || (a.handles[fd].offset == 0 && !HasRoom(a))
    ensures var (a', n) := AWrite(a, fd, msg);
            (n == -1 && a' == a) || (n == |msg| && Appended(a, a', fd, a.handles[fd].file.value, msg))
  {
    var nm, at := a.handles[fd].file.value, a.handles[fd].offset;
    if msg == [] {
      assert a.files[nm] + msg == a.files[nm];
    } else if at + |msg| <= a.params.blockSize {
      assert Overwrite(a.files[nm], at, msg) == a.files[nm] + msg;
      assert msg[..|msg|] == msg;
    }
  }

  ghost predicate Appended(a: AFs, a': AFs, fd: nat, nm: Name, msg: Message) {
    && a'.params == a.params
    && nm in a.files && a'.files == a.files[nm := a.files[nm] + msg]
    && fd in a.handles && a'.handles == a.handles[fd := Handle(Some(nm), a.handles[fd].offset + |msg|)]
  }

  lemma GoodStored(a: AFs, b: BrokerState, a': AFs, fs: Fs, path: CString)
    requires Good(a, b) && path in b.boxes && ValidPathname(path) && b.boxes[path].session.Opened?
    requires Appended(a, a', b.boxes[path].session.fd, path[1..], b.boxes[path].session.msg)
    ensures var Opened(fd, msg) := b.boxes[path].session;
            Good(a', SetSession(b.(fs := fs), path, Wrote(fd, msg)))
  {
    hide BoxOk, ReplayOk, HasBox, Keeps, Flatten;
    var Opened(fd, msg) := b.boxes[path].session;
    var boxes' := SetSession(b, path, Wrote(fd, msg)).boxes;
    StoredBox(a, b.owners, a', path, b.boxes[path]);
    HandleMoved(a, b, a', fd, Publisher(path));
    OtherBoxes(a, b, a', b.owners, path);
    ReplaysKept(a, b, a', b.owners, boxes');
    OnlyBoxesKept(a, a', b.boxes, boxes', path);
  }

  lemma StoredBox(a: AFs, owners: map<nat, Owner>, a': AFs, path: CString, box: Box)
    requires BoxOk(a, owners, path, box) && box.session.Opened?
    requires Appended(a, a', box.session.fd, path[1..], box.session.msg)
    ensures Holds(a, owners, box.session.fd, Publisher(path), path[1..])
    ensures BoxOk(a', owners, path, box.(session := Wrote(box.session.fd, box.session.msg)))
  {
    hide Flatten;
    assert a.files[path[1..]] == Flatten(box.log);
  }

  // The boxes of other paths, when the file of this one changes.
  lemma OtherBoxes(a: AFs, b: BrokerState, a': AFs, owners': map<nat, Owner>, path: CString)
    requires BoxesOk(a, b.owners, b.boxes) && ValidPathname(path)
    requires forall who :: who != Publisher(path) ==> Keeps(a, b.owners, a', owners', who)
    requires forall nm :: nm in a.files && nm != path[1..] ==> nm in a'.files && a'.files[nm] == a.files[nm]
    ensures forall p :: p in b.boxes && p != path ==> BoxOk(a', owners', p, b.boxes[p])
  {
    hide BoxOk, Keeps;
    PathName(path);
    forall p | p in b.boxes && p != path ensures BoxOk(a', owners', p, b.boxes[p]) {
      BoxFile(a, b.owners, p, b.boxes[p]);
      PathName(p);
      assert Publisher(p) != Publisher(path) && Creator(p) != Publisher(path);
      BoxFrame(a, b.owners, a', owners', p, b.boxes[p]);
    }
  }

  // Only handle fd moved, so everybody but its holder keeps their handles.
  lemma HandleMoved(a: AFs, b: BrokerState, a': AFs, fd: nat, who: Owner)
    requires fd in b.owners && b.owners[fd] == who && fd in a'.handles && a'.handles == a.handles[fd := a'.handles[fd]]
    ensures forall other :: other != who ==> Keeps(a, b.owners, a', b.owners, other)
  {
  }

  lemma ReplaysKept(a: AFs, b: BrokerState, a': AFs, owners': map<nat, Owner>, boxes': map<CString, Box>)
    requires ReplaysOk(a, b.owners, b.boxes, b.replays)
    requires forall id :: id in b.replays ==> Keeps(a, b.owners, a', owners', Replayer(id))
    requires forall p :: p in b.boxes ==> p in boxes' && boxes'[p].log == b.boxes[p].log
    ensures ReplaysOk(a', owners', boxes', b.replays)
  {
    hide Holds, Flatten, Keeps;
    forall id | id in b.replays ensures ReplayOk(a', owners', boxes', id, b.replays[id]) {
      ReplayFrame(a, b.owners, a', owners', b.boxes, id, b.replays[id]);
    }
  }

  lemma OnlyBoxesKept(a: AFs, a': AFs, boxes: map<CString, Box>, boxes': map<CString, Box>, path: CString)
    requires OnlyBoxes(a, boxes) && boxes.Keys <= boxes'.Keys && path in boxes' && ValidPathname(path)
    requires forall nm :: nm in a'.files && nm != path[1..] ==> nm in a.files && a'.files[nm] == a.files[nm]
    ensures OnlyBoxes(a', boxes')
  {
    PathName(path);
    forall nm | nm in a'.files && a'.files[nm] != [] ensures HasBox(boxes', nm) {
      if nm != path[1..] {
        assert HasBox(boxes, nm);
        var p :| p in boxes && p == [SLASH] + nm;
        assert p in boxes';
      }
    }
  }

  lemma GoodShut(a: AFs, b: BrokerState, fs: Fs, path: CString)
    requires Good(a, b) && path in b.boxes && b.boxes[path].session.Wrote?
    ensures var Wrote(fd, msg) := b.boxes[path].session;
            Good(a.(handles := a.handles - {fd}),
                 SetSession(b.(fs := fs, owners := b.owners - {fd}), path, Closed(msg)))
  {
    hide BoxOk, ReplayOk, HasBox, Keeps, Flatten;
    var Wrote(fd, msg) := b.boxes[path].session;
    var a' := a.(handles := a.handles - {fd});
    var owners' := b.owners - {fd};
    var boxes' := SetSession(b, path, Closed(msg)).boxes;
    ShutBox(a, b.owners, path, b.boxes[path]);
    HandleGone(a, b, fd, Publisher(path));
    OtherBoxes(a, b, a', owners', path);
    ReplaysKept(a, b, a', owners', boxes');
    OnlyBoxesKept(a, a', b.boxes, boxes', path);
  }

  lemma ShutBox(a: AFs, owners: map<nat, Owner>, path: CString, box: Box)
    requires BoxOk(a, owners, path, box) && box.session.Wrote?
    ensures ValidPathname(path) && Holds(a, owners, box.session.fd, Publisher(path), path[1..])
    ensures BoxOk(a.(handles := a.handles - {box.session.fd}), owners - {box.session.fd}, path,
                  box.(session := Closed(box.session.msg)))
  {
    hide Flatten;
  }

  lemma HandleGone(a: AFs, b: BrokerState, fd: nat, who: Owner)
    requires fd in b.owners && b.owners[fd] == who
    ensures forall other :: other != who ==>
              Keeps(a, b.owners, a.(handles := a.handles - {fd}), b.owners - {fd}, other)
  {
  }

  // ---- replaying ----

  lemma GoodMoved(a: AFs, b: BrokerState, fs: Fs, id: nat, replay: Replay, offset: nat)
    requires Good(a, b) && !replay.Failed? && replay.path in b.boxes && |replay.path| > 0
    requires Holds(a, b.owners, replay.fd, Replayer(id), replay.path[1..])
    requires ReplayOk(MoveTo(a, replay.fd, offset), b.owners, b.boxes, id, replay)
    ensures Good(MoveTo(a, replay.fd, offset), SetReplay(b.(fs := fs), id, replay))
  {
    hide ReplayOk, BoxOk, HasBox, Flatten;
    var a' := MoveTo(a, replay.fd, offset);
    HandleMoved(a, b, a', replay.fd, Replayer(id));
    forall p | p in b.boxes ensures BoxOk(a', b.owners, p, b.boxes[p]) {
      BoxFile(a, b.owners, p, b.boxes[p]);
      BoxFrame(a, b.owners, a', b.owners, p, b.boxes[p]);
    }
    forall i | i in b.replays && i != id ensures ReplayOk(a', b.owners, b.boxes, i, b.replays[i]) {
      ReplayFrame(a, b.owners, a', b.owners, b.boxes, i, b.replays[i]);
    }
  }

  function MoveTo(a: AFs, fd: nat, offset: nat): AFs
    requires fd in a.handles
  {
    a.(handles := a.handles[fd := a.handles[fd].(offset := offset)])
  }

  // Behind the first k messages, a read of the next size yields the next message,
  // whatever is pending behind the log.
  lemma ReadFacts(a: AFs, fd: nat, log: seq<Message>, pending: seq<byte>, k: nat)
    requires Connected(a) && HasFile(a, fd) && k < |log| && FileOf(a, fd) == Flatten(log) + pending
    requires a.handles[fd].offset == |Flatten(log[..k])|
    ensures Disciplined(a, Read(fd, |log[k]|))
    ensures ARead(a, fd, |log[k]|) == (MoveTo(a, fd, |Flatten(log[..k + 1])|), Reply.Bytes(log[k]))
  {
    hide Flatten;
    MessageAt(log, k);
    assert (Flatten(log) + pending)[|Flatten(log[..k])|..|Flatten(log[..k])| + |log[k]|] == log[k];
    ReadAt(a, fd, FileOf(a, fd), log[k]);
  }

  lemma ReadAt(a: AFs, fd: nat, file: seq<byte>, m: Message)
    requires Connected(a) && HasFile(a, fd) && file == FileOf(a, fd)
    requires var at := a.handles[fd].offset; at + |m| <= |file| && file[at..at + |m|] == m
    ensures Disciplined(a, Read(fd, |m|))
    ensures ARead(a, fd, |m|) == (MoveTo(a, fd, a.handles[fd].offset + |m|), Reply.Bytes(m))
  {
  }
}
