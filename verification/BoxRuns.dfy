// Whole runs of the broker: which keep the boxes good, what they deliver, and
// how long they can go on.
module BoxRuns {
  import opened Prelude
  import opened Bytes
  import opened M = FsModel
  import opened FsAbstract
  import opened FsInvariant
  import opened FsDirectory
  import opened FsSimulation
  import opened BoxLog
  import opened Framing
  import opened BoxProtocol
  import opened BoxFrames
  import opened BoxSafety

  // ---- one step ----

  // A step leads to a good state exactly when it is allowed.
  lemma StepFine(b: BrokerState, act: Action)
    requires BInv(b)
    ensures Shaped(b.fs) && (Fine(BStep(b, act)) <==> Allowed(b, act))
  {
    hide Tidy, Inv, Represents, NoneStranded, Abs, Good, Step, SetSession;
    hide CreateBox, PublishStep, StoreStep, ShutStep, RecordStep, SubscribeStep, RestartStep, FetchStep;
    AbsFacts(b.fs);
    match act
    case Create(path) => CreateFine(b, path);
    case Register(path) => if At(b, path, Idle) { SessionFine(b, path, Ready); }
    case Unregister(path) => if At(b, path, Ready) { SessionFine(b, path, Idle); }
    case GiveUp(path) => if At(b, path, Ready) { SessionFine(b, path, Dead); }
    case Publish(path, body) => PublishFine(b, path, body);
    case Store(path) => StoreFine(b, path);
    case Shut(path) => ShutFine(b, path);
    case Record(path) => RecordFine(b, path);
    case Subscribe(id, path) => SubscribeFine(b, id, path);
    case Restart(id, junk) => RestartFine(b, id, junk);
    case Fetch(id) => FetchFine(b, id);
  }

  // ---- runs ----

  function Exec(b: BrokerState, acts: seq<Action>): (r: Outcome<BrokerState>)
    requires Shaped(b.fs)
    ensures r.Done? ==> Shaped(r.value.fs)
    decreases |acts|
  {
    if acts == [] then Done(b)
    else
      var c :- BStep(b, acts[0]);
      Exec(c, acts[1..])
  }

  lemma ExecCons(b: BrokerState, act: Action, rest: seq<Action>)
    requires Shaped(b.fs)
    ensures Exec(b, [act] + rest) == if BStep(b, act).Done? then Exec(BStep(b, act).value, rest) else BStep(b, act)
  {
    hide BStep;
    assert ([act] + rest)[1..] == rest;
  }

  ghost predicate FineRun(b: BrokerState, acts: seq<Action>)
    requires BInv(b)
    decreases |acts|
  {
    if acts == [] then true
    else
      AbsFacts(b.fs);
      Fine(BStep(b, acts[0])) && FineRun(BStep(b, acts[0]).value, acts[1..])
  }

  // Every step of the run is allowed where it is taken.
  ghost predicate AllowedRun(b: BrokerState, acts: seq<Action>)
    requires BInv(b)
    decreases |acts|
  {
    if acts == [] then true
    else
      StepFine(b, acts[0]);
      Allowed(b, acts[0]) && AllowedRun(BStep(b, acts[0]).value, acts[1..])
  }

  // In every interleaving: all states of a run are good exactly when all its
  // steps are allowed.
  lemma {:induction false} RunFine(b: BrokerState, acts: seq<Action>)
    requires BInv(b)
    ensures FineRun(b, acts) <==> AllowedRun(b, acts)
    ensures Shaped(b.fs) && (FineRun(b, acts) ==> Fine(Exec(b, acts)))
    decreases |acts|
  {
    hide Tidy, Good, BStep, Allowed;
    if acts == [] {
      AbsFacts(b.fs);
    } else {
      StepFine(b, acts[0]);
      if Allowed(b, acts[0]) {
        RunFine(BStep(b, acts[0]).value, acts[1..]);
      }
    }
  }

  // ---- what good states mean ----

  // What the publisher of a box has stored.
  function Written(box: Box): seq<Message> {
    match box.session
    case Wrote(_, msg) => box.log + [msg]
    case Closed(msg) => box.log + [msg]
    case _ => box.log
  }

  predicate HasSent(replay: Replay) {
    replay.Reading? || replay.Finished?
  }

  // The file of every box is what its publishers have stored, the recorded
  // messages and at most one more; cut up by the recorded sizes it yields the
  // recorded messages; and every replay has sent the texts of the first of them.
  lemma BoxesHoldTheirLogs(b: BrokerState, path: CString)
    requires BInv(b) && path in b.boxes
    ensures ValidPathname(path) && path[1..] in Abs(b.fs).files
    ensures var box, file := b.boxes[path], Abs(b.fs).files[path[1..]];
            && file == Flatten(Written(box))
            && box.log <= Written(box) && |Written(box)| <= |box.log| + 1
            && Sum(box.sizes) <= |file| && Split(file, box.sizes) == box.log
    ensures forall id :: id in b.replays && HasSent(b.replays[id]) && b.replays[id].path == path ==>
              SentFor(b.replays[id].junk, b.boxes[path].log, b.replays[id].sent)
  {
    hide Tidy, Inv, Represents, NoneStranded, Abs, Good, BoxOk, ReplayOk, SentFor, Split, Flatten, Sum;
    var box := b.boxes[path];
    BoxFacts(Abs(b.fs), b, path);
    BoxContents(Abs(b.fs), b.owners, path, box);
    SplitFlatten(box.log, Pending(box.session));
    if box.session.Wrote? || box.session.Closed? {
      FlattenPush(box.log, box.session.msg);
    } else {
      assert Flatten(box.log) + [] == Flatten(box.log);
    }
    forall id | id in b.replays && HasSent(b.replays[id]) && b.replays[id].path == path
      ensures SentFor(b.replays[id].junk, b.boxes[path].log, b.replays[id].sent)
    {
      ReplayFacts(Abs(b.fs), b, id);
      SentSoFar(Abs(b.fs), b, id);
    }
  }

  lemma SentSoFar(a: AFs, b: BrokerState, id: nat)
    requires id in b.replays && ReplayOk(a, b.owners, b.boxes, id, b.replays[id])
    requires HasSent(b.replays[id])
    ensures b.replays[id].path in b.boxes
    ensures SentFor(b.replays[id].junk, b.boxes[b.replays[id].path].log, b.replays[id].sent)
  {
  }

  // ---- nothing stored is lost ----

  // c comes later than b: boxes stay, their stored messages at most grow, and so
  // does what a replay was sent.
  ghost predicate Later(b: BrokerState, c: BrokerState) {
    && (forall path :: path in b.boxes ==> path in c.boxes && Written(b.boxes[path]) <= Written(c.boxes[path]))
    && (forall path :: path in b.boxes ==> b.boxes[path].log <= c.boxes[path].log)
    && (forall id :: id in b.replays ==> id in c.replays && Sent(b.replays[id]) <= Sent(c.replays[id]))
  }

  function Sent(replay: Replay): seq<seq<byte>> {
    match replay
    case Reading(_, _, _, sent) => sent
    case Finished(_, _, _, sent) => sent
    case _ => []
  }

  lemma LaterTrans(b: BrokerState, c: BrokerState, d: BrokerState)
    requires Later(b, c) && Later(c, d)
    ensures Later(b, d)
  {
    forall path | path in b.boxes ensures path in d.boxes && Written(b.boxes[path]) <= Written(d.boxes[path]) {
      assert path in c.boxes;
    }
  }

  lemma LaterBox(b: BrokerState, c: BrokerState, path: CString, box: Box)
    requires c.boxes == b.boxes[path := box] && c.replays == b.replays
    requires path in b.boxes ==> b.boxes[path].log <= box.log && Written(b.boxes[path]) <= Written(box)
    ensures Later(b, c)
  {
    hide Written;
  }

  lemma LaterReplay(b: BrokerState, c: BrokerState, id: nat, replay: Replay)
    requires c.boxes == b.boxes && c.replays == b.replays[id := replay]
    requires id in b.replays ==> Sent(b.replays[id]) <= Sent(replay)
    ensures Later(b, c)
  {
    hide Sent;
  }

  lemma LaterSelf(b: BrokerState, c: BrokerState)
    requires c.boxes == b.boxes && c.replays == b.replays
    ensures Later(b, c)
  {
  }

  // No step loses a stored message: in a good state the close in write_to_box
  // cannot fail, and neither can a read in a replay.
  lemma StepLater(b: BrokerState, act: Action)
    requires BInv(b) && Allowed(b, act)
    ensures Shaped(b.fs) && BStep(b, act).Done? && Later(b, BStep(b, act).value)
  {
    hide Tidy, Inv, Represents, NoneStranded, Abs, Good, Step, Allowed, Later;
    StepFine(b, act);
    var c := BStep(b, act).value;
    if c.boxes == b.boxes && c.replays == b.replays {
      LaterSelf(b, c);
    } else {
      match act
      case Create(path) => LaterBox(b, c, path, c.boxes[path]);
      case Subscribe(id, path) => LaterReplay(b, c, id, c.replays[id]);
      case Restart(id, _) => LaterReplay(b, c, id, c.replays[id]);
      case Fetch(id) => FetchLater(b, id);
      case _ => SessionLater(b, act);
    }
  }

  lemma SessionLater(b: BrokerState, act: Action)
    requires BInv(b) && Fine(BStep(b, act)) && !act.Create? && !act.Subscribe? && !act.Restart? && !act.Fetch?
    requires act.path in b.boxes
    ensures Later(b, BStep(b, act).value)
  {
    hide Tidy, Inv, Represents, NoneStranded, Abs, Good, Step, Later, ShutStep;
    AbsFacts(b.fs);
    if act.Shut? {
      ShutLater(b, act.path);
    } else {
      LaterBox(b, BStep(b, act).value, act.path, BStep(b, act).value.boxes[act.path]);
    }
  }

  lemma ShutLater(b: BrokerState, path: CString)
    requires BInv(b) && path in b.boxes
    ensures Shaped(b.fs) && ShutStep(b, path).Done? && Later(b, ShutStep(b, path).value)
  {
    hide Tidy, Inv, Represents, NoneStranded, Abs, Good, Step, BoxOk, Later, AClose;
    AbsFacts(b.fs);
    ShutFine(b, path);
    if b.boxes[path].session.Wrote? {
      var Wrote(fd, msg) := b.boxes[path].session;
      BoxFacts(Abs(b.fs), b, path);
      ShutBox(Abs(b.fs), b.owners, path, b.boxes[path]);
      CallAgrees(b.fs, Close(fd));
      CloseWorks(Abs(b.fs), fd);
      LaterBox(b, ShutStep(b, path).value, path, b.boxes[path].(session := Closed(msg)));
    } else {
      LaterSelf(b, b);
    }
  }

  lemma CloseWorks(a: AFs, fd: nat)
    requires fd in a.handles
    ensures AClose(a, fd).1 == 0
  {
  }

  lemma FetchLater(b: BrokerState, id: nat)
    requires BInv(b) && Allowed(b, Fetch(id))
    ensures Shaped(b.fs) && FetchStep(b, id).Done? && Later(b, FetchStep(b, id).value)
  {
    hide Tidy, Inv, Represents, NoneStranded, Abs, Good, Step, ReplayOk, BoxOk, Later;
    FetchFine(b, id);
    if id in b.replays && b.replays[id].Reading? {
      var path := b.replays[id].path;
      ReplayFacts(Abs(b.fs), b, id);
      ReadingFacts(Abs(b.fs), b, id);
      BoxFacts(Abs(b.fs), b, path);
      BoxContents(Abs(b.fs), b.owners, path, b.boxes[path]);
      if |b.replays[id].sent| < |b.boxes[path].log| {
        NextFine(b, id);
        LaterReplay(b, FetchStep(b, id).value, id, NextReading(b, id));
      } else {
        LaterReplay(b, FetchStep(b, id).value, id, FetchStep(b, id).value.replays[id]);
      }
    } else {
      LaterSelf(b, b);
    }
  }

  lemma {:induction false} RunLater(b: BrokerState, acts: seq<Action>)
    requires BInv(b) && AllowedRun(b, acts)
    ensures Shaped(b.fs) && Fine(Exec(b, acts)) && Later(b, Exec(b, acts).value)
    decreases |acts|
  {
    hide Tidy, Good, BStep, Allowed, Later;
    if acts == [] {
      AbsFacts(b.fs);
      LaterSelf(b, b);
    } else {
      StepFine(b, acts[0]);
      StepLater(b, acts[0]);
      var c := BStep(b, acts[0]).value;
      RunLater(c, acts[1..]);
      LaterTrans(b, c, Exec(c, acts[1..]).value);
    }
  }

  // ---- a replay from beginning to end ----

  function Fetches(id: nat, n: nat): (acts: seq<Action>)
    ensures |acts| == n
  {
    if n == 0 then [] else [Fetch(id)] + Fetches(id, n - 1)
  }

  // All of get_old_messages, for a list of n messages.
  function WholeReplay(id: nat, path: CString, junk: Buffer, n: nat): seq<Action> {
    [Subscribe(id, path), Restart(id, junk)] + Fetches(id, n + 1)
  }

  // The replay has ended and sent exactly these texts.
  ghost predicate Delivered(r: Outcome<BrokerState>, id: nat, texts: seq<seq<byte>>) {
    r.Done? && id in r.value.replays && r.value.replays[id].Finished? && r.value.replays[id].sent == texts
  }

  // What one fetch does in a good state.
  lemma FetchOnce(b: BrokerState, id: nat)
    requires BInv(b) && id in b.replays && b.replays[id].Reading?
    ensures var Reading(path, fd, junk, sent) := b.replays[id];
            && path in b.boxes && |sent| <= |b.boxes[path].log|
            && (|sent| < |b.boxes[path].log| && NextText(b, id).Done? ==> Moved(b, id, NextReading(b, id)))
            && (|sent| < |b.boxes[path].log| && !NextText(b, id).Done? ==> Shaped(b.fs) && FetchStep(b, id) == Wild)
            && (|sent| < |b.boxes[path].log| && sent != [] ==> NextText(b, id) == Done(b.boxes[path].log[|sent|]))
            && (|sent| == |b.boxes[path].log| && sent != [] ==> Moved(b, id, Finished(path, fd, junk, sent)))
  {
    hide Tidy, Inv, Represents, NoneStranded, Abs;
    hide Good, Step, ReplayOk, BoxOk, SentFor, ReplayedText;
    var path := b.replays[id].path;
    ReplayFacts(Abs(b.fs), b, id);
    ReadingFacts(Abs(b.fs), b, id);
    BoxFacts(Abs(b.fs), b, path);
    BoxContents(Abs(b.fs), b.owners, path, b.boxes[path]);
    FetchFine(b, id);
    if |b.replays[id].sent| < |b.boxes[path].log| {
      NextFine(b, id);
      NextTextFacts(Abs(b.fs), b, id);
    }
  }

  // A fetch leads to a good state in which only this replay has moved.
  ghost predicate Moved(b: BrokerState, id: nat, replay: Replay)
    requires BInv(b)
  {
    && Shaped(b.fs) && Fine(FetchStep(b, id)) && FetchStep(b, id).value.boxes == b.boxes
    && FetchStep(b, id).value.replays == b.replays[id := replay]
  }

  lemma ExecFetches(b: BrokerState, id: nat, n: nat)
    requires Shaped(b.fs) && n > 0
    ensures Exec(b, Fetches(id, n)) ==
            if FetchStep(b, id).Done? then Exec(FetchStep(b, id).value, Fetches(id, n - 1)) else FetchStep(b, id)
  {
    hide FetchStep;
    ExecCons(b, Fetch(id), Fetches(id, n - 1));
  }

  lemma ExecNoFetches(b: BrokerState, id: nat)
    requires Shaped(b.fs)
    ensures Exec(b, Fetches(id, 0)) == Done(b)
  {
  }

  // A replay that has sent its first text sends the rest of the log as it is.
  lemma {:induction false} FetchesDeliver(b: BrokerState, id: nat)
    requires BInv(b) && id in b.replays && b.replays[id].Reading? && b.replays[id].sent != []
    requires var Reading(path, fd, junk, sent) := b.replays[id]; path in b.boxes && |sent| <= |b.boxes[path].log|
    ensures Shaped(b.fs)
    ensures var Reading(path, fd, junk, sent) := b.replays[id];
            var log := b.boxes[path].log;
            Delivered(Exec(b, Fetches(id, |log| - |sent| + 1)), id, sent + log[|sent|..])
    decreases |b.boxes[b.replays[id].path].log| - |b.replays[id].sent|
  {
    hide BInv, FetchStep, Fetches, Exec, NextText;
    var Reading(path, fd, junk, sent) := b.replays[id];
    var log := b.boxes[path].log;
    FetchOnce(b, id);
    ExecFetches(b, id, |log| - |sent| + 1);
    if |sent| < |log| {
      var c := FetchStep(b, id).value;
      assert c.replays[id].sent == sent + [log[|sent|]];
      FetchesDeliver(c, id);
      assert sent + [log[|sent|]] + log[|sent| + 1..] == sent + log[|sent|..];
    } else {
      ExecNoFetches(FetchStep(b, id).value, id);
      assert sent + log[|sent|..] == sent;
    }
  }

  // ---- when a replay works ----

  ghost predicate HasFreeHandle(b: BrokerState)
    requires BInv(b)
  {
    |Abs(b.fs).handles| < b.fs.params.maxOpen
  }

  lemma SubscribeOnce(b: BrokerState, id: nat, path: CString)
    requires BInv(b) && id !in b.replays && path in b.boxes && HasFreeHandle(b)
    ensures Fine(SubscribeStep(b, id, path))
    ensures var c := SubscribeStep(b, id, path).value;
            && c.boxes == b.boxes && id in c.replays && c.replays[id].Begun? && c.replays[id].path == path
            && c.replays[id].fd in Abs(c.fs).handles
            && Abs(c.fs).handles[c.replays[id].fd].offset == |Flatten(Written(b.boxes[path]))|
  {
    hide Tidy, Inv, Represents, NoneStranded, Abs, Good, Step, BoxOk, Connected, ReplayOk, Flatten, Written;
    AbsFacts(b.fs);
    SubscribeFine(b, id, path);
    Opening(b, path, TFS_O_APPEND, Replayer(id));
    BoxesHoldTheirLogs(b, path);
    HandleFree(Abs(b.fs), path);
  }

  // An existing file can be opened while there are fewer handles than entries.
  lemma HandleFree(a: AFs, path: CString)
    requires ValidPathname(path) && path[1..] in a.files && |a.handles| < a.params.maxOpen
    ensures AOpen(a, path, TFS_O_APPEND).1 >= 0
  {
    var h := LowestFree(a.handles.Keys, a.params.maxOpen);
    if h == a.params.maxOpen {
      assert UpTo(h) <= a.handles.Keys;
      SubsetCard(UpTo(h), a.handles.Keys);
    }
    assert a.(files := a.files[path[1..] := a.files[path[1..]]]).handles == a.handles;
  }

  lemma RestartOnce(b: BrokerState, id: nat, junk: Buffer)
    requires BInv(b) && id in b.replays && b.replays[id].Begun? && b.replays[id].fd in Abs(b.fs).handles
    ensures Shaped(b.fs) && RestartStep(b, id, junk).Done?
    ensures var Begun(path, fd) := b.replays[id];
            var c := RestartStep(b, id, junk).value;
            && c.boxes == b.boxes && id in c.replays && c.replays[id] == Reading(path, fd, junk, [])
            && if Abs(b.fs).handles[fd].offset > 0 then BInv(c) else c.fs.locked
  {
    hide Tidy, Inv, Represents, NoneStranded, Abs, Good, Step, ReplayOk, Disciplined, Connected;
    AbsFacts(b.fs);
    var fd := b.replays[id].fd;
    RestartFine(b, id, junk);
    if Abs(b.fs).handles[fd].offset > 0 {
      RewindDisciplined(Abs(b.fs), fd);
      CallAgrees(b.fs, Rewind(fd));
    } else {
      RewindIsNotFine(b.fs, fd);
    }
  }

  // What a whole replay sends for a log: the first message runs on to the next NUL
  // of the buffer, which was not cleared, and the others are sent as they are.
  ghost predicate SentAll(junk: Buffer, log: seq<Message>, texts: seq<seq<byte>>) {
    log != [] && |texts| == |log| && SentFor(junk, log, texts)
  }

  // A replay begun while a handle is free sends these texts and ends, if and only
  // if the file has a byte; on an empty file the rewind locks the file system for
  // good.
  lemma ReplayEnds(b: BrokerState, id: nat, path: CString, junk: Buffer, texts: seq<seq<byte>>)
    requires BInv(b) && id !in b.replays && path in b.boxes && HasFreeHandle(b)
    ensures Shaped(b.fs)
    ensures var log := b.boxes[path].log;
            Delivered(Exec(b, WholeReplay(id, path, junk, |log|)), id, texts) <==>
            Flatten(Written(b.boxes[path])) != [] && SentAll(junk, log, texts)
  {
    hide BInv, HasFreeHandle, SubscribeStep, RestartStep, Fetches, WholeReplay, Exec, Flatten, Written, Delivered;
    hide SentAll;
    var d := ReplayReady(b, id, path, junk);
    ExecTwo(b, id, path, junk, |b.boxes[path].log|);
    ReadyExact(d, id, Flatten(Written(b.boxes[path])) == [], texts);
  }

  // It delivers the log exactly as it was stored, empty messages included, if and
  // only if the log has a message, the file has a byte, and the buffer happens to
  // hold a NUL right behind the first message.
  lemma ReplayExact(b: BrokerState, id: nat, path: CString, junk: Buffer)
    requires BInv(b) && id !in b.replays && path in b.boxes && HasFreeHandle(b)
    ensures Shaped(b.fs)
    ensures var log := b.boxes[path].log;
            Delivered(Exec(b, WholeReplay(id, path, junk, |log|)), id, log) <==>
            log != [] && Flatten(Written(b.boxes[path])) != [] && NulBehind(junk, log[0])
  {
    hide Tidy, HasFreeHandle, WholeReplay, Exec, Flatten, Written, Delivered, Good;
    var log := b.boxes[path].log;
    ReplayEnds(b, id, path, junk, log);
    BoxTexts(b, path);
    if log != [] {
      ReplayedExact(junk, log[0]);
      assert [log[0]] + log[1..] == log;
    }
  }

  lemma BoxTexts(b: BrokerState, path: CString)
    requires BInv(b) && path in b.boxes
    ensures AllTexts(b.boxes[path].log)
  {
    hide Tidy, Abs, Good, BoxOk;
    BoxFacts(Abs(b.fs), b, path);
    BoxContents(Abs(b.fs), b.owners, path, b.boxes[path]);
  }

  // From there on: nothing is delivered if the file was empty, because everything
  // is locked.
  lemma ReadyExact(d: BrokerState, id: nat, empty: bool, texts: seq<seq<byte>>)
    requires Shaped(d.fs) && id in d.replays && d.replays[id].Reading? && d.replays[id].sent == []
    requires d.replays[id].path in d.boxes && if empty then d.fs.locked else BInv(d)
    ensures var log := d.boxes[d.replays[id].path].log;
            Delivered(Exec(d, Fetches(id, |log| + 1)), id, texts) <==>
            !empty && SentAll(d.replays[id].junk, log, texts)
  {
    hide BInv, Fetches, Exec, Moved, FetchStep, ReplayedText, RunsOn, NulFrom;
    var log := d.boxes[d.replays[id].path].log;
    ExecFetches(d, id, |log| + 1);
    if empty {
      FetchBlocked(d, id);
    } else if log == [] {
      FetchOnNull(d, id);
    } else {
      FetchOnce(d, id);
      BoxTexts(d, d.replays[id].path);
      OnlyThese(d.replays[id].junk, log, texts);
      if NextText(d, id).Done? {
        FirstFetched(d, id);
      }
    }
  }

  // Which texts those are is told by the first of them.
  lemma OnlyThese(junk: Buffer, log: seq<Message>, texts: seq<seq<byte>>)
    requires log != [] && AllTexts(log)
    ensures var first := ReplayedText(BufferFor(junk, 0), log[0]);
            SentAll(junk, log, texts) <==> first.Done? && texts == [first.value] + log[1..]
  {
    hide ReplayedText, RunsOn, NulFrom;
    var first := ReplayedText(BufferFor(junk, 0), log[0]);
    if first.Done? {
      ReplayedExactly(junk, log[0], first.value);
    }
    if texts != [] {
      ReplayedExactly(junk, log[0], texts[0]);
      assert texts == [texts[0]] + texts[1..];
    }
    if SentAll(junk, log, texts) {
      assert forall k :: 0 < k < |log| ==> texts[k] == log[k];
      assert texts[1..] == log[1..];
    }
  }

  // Once the first text is sent, the replay comes to its end.
  lemma FirstFetched(d: BrokerState, id: nat)
    requires BInv(d) && id in d.replays && d.replays[id].Reading? && d.replays[id].sent == []
    requires d.replays[id].path in d.boxes && d.boxes[d.replays[id].path].log != [] && NextText(d, id).Done?
    requires Moved(d, id, NextReading(d, id))
    ensures FetchStep(d, id).Done? && Shaped(FetchStep(d, id).value.fs)
    ensures var log := d.boxes[d.replays[id].path].log;
            Delivered(Exec(FetchStep(d, id).value, Fetches(id, |log|)), id, [NextText(d, id).value] + log[1..])
  {
    hide BInv, Fetches, Exec, FetchStep, NextText;
    FetchesDeliver(FetchStep(d, id).value, id);
  }

  // The state in which the first message is read.
  lemma ReplayReady(b: BrokerState, id: nat, path: CString, junk: Buffer) returns (d: BrokerState)
    requires BInv(b) && id !in b.replays && path in b.boxes && HasFreeHandle(b)
    ensures Shaped(b.fs) && SubscribeStep(b, id, path).Done?
    ensures RestartStep(SubscribeStep(b, id, path).value, id, junk) == Done(d)
    ensures Shaped(d.fs) && d.boxes == b.boxes && id in d.replays && d.replays[id].Reading?
    ensures d.replays[id].path == path && d.replays[id].junk == junk && d.replays[id].sent == []
    ensures if Flatten(Written(b.boxes[path])) == [] then d.fs.locked else BInv(d)
  {
    hide Tidy, Inv, Represents, NoneStranded, Abs;
    hide Good, Step, SubscribeStep, RestartStep, Flatten, Written, HasFreeHandle;
    AbsFacts(b.fs);
    SubscribeOnce(b, id, path);
    var c := SubscribeStep(b, id, path).value;
    RestartOnce(c, id, junk);
    d := RestartStep(c, id, junk).value;
  }

  lemma ExecTwo(b: BrokerState, id: nat, path: CString, junk: Buffer, n: nat)
    requires Shaped(b.fs) && SubscribeStep(b, id, path).Done?
    requires RestartStep(SubscribeStep(b, id, path).value, id, junk).Done?
    ensures Exec(b, WholeReplay(id, path, junk, n)) ==
            Exec(RestartStep(SubscribeStep(b, id, path).value, id, junk).value, Fetches(id, n + 1))
  {
    hide SubscribeStep, RestartStep, Fetches, Exec;
    assert WholeReplay(id, path, junk, n) == [Subscribe(id, path)] + ([Restart(id, junk)] + Fetches(id, n + 1));
    ExecCons(b, Subscribe(id, path), [Restart(id, junk)] + Fetches(id, n + 1));
    ExecCons(SubscribeStep(b, id, path).value, Restart(id, junk), Fetches(id, n + 1));
  }

  lemma FetchBlocked(b: BrokerState, id: nat)
    requires Shaped(b.fs) && b.fs.locked && id in b.replays && b.replays[id].Reading? && b.replays[id].sent == []
    ensures !FetchStep(b, id).Done?
  {
  }

  lemma FetchOnNull(b: BrokerState, id: nat)
    requires BInv(b) && id in b.replays && b.replays[id].Reading? && b.replays[id].sent == []
    requires b.replays[id].path in b.boxes && b.boxes[b.replays[id].path].log == []
    ensures Shaped(b.fs) && FetchStep(b, id) == Wild
  {
    hide Tidy, Inv, Represents, NoneStranded, Abs, Good, BoxOk;
    var path := b.replays[id].path;
    AbsFacts(b.fs);
    BoxFacts(Abs(b.fs), b, path);
    BoxContents(Abs(b.fs), b.owners, path, b.boxes[path]);
  }

  // ---- how long the broker lasts ----

  // Replays that hold a handle.
  function Replaying(b: BrokerState): set<nat> {
    set id | id in b.replays && !b.replays[id].Failed?
  }

  // The handles that creations opened, one for each box.
  lemma CreatorHandles(owners: map<nat, Owner>, boxes: map<CString, Box>) returns (fds: set<nat>)
    requires forall path :: path in boxes ==> boxes[path].fd in owners && owners[boxes[path].fd] == Creator(path)
    ensures |fds| == |boxes| && forall fd :: fd in fds ==> fd in owners && owners[fd].Creator?
  {
    var m := map path | path in boxes :: boxes[path].fd;
    assert forall path :: path in m ==> owners[m[path]] == Creator(path);
    InjectiveCard(m);
    assert m.Keys == boxes.Keys;
    fds := m.Values;
  }

  // The handles that replays opened.
  lemma ReplayHandles(owners: map<nat, Owner>, replays: map<nat, Replay>, live: set<nat>) returns (fds: set<nat>)
    requires forall id :: id in live ==> id in replays && !replays[id].Failed?
    requires forall id :: id in live ==> replays[id].fd in owners && owners[replays[id].fd] == Replayer(id)
    ensures |fds| == |live| && forall fd :: fd in fds ==> fd in owners && owners[fd].Replayer?
  {
    var m := map id | id in live :: replays[id].fd;
    assert forall id :: id in m ==> owners[m[id]] == Replayer(id);
    InjectiveCard(m);
    assert m.Keys == live;
    fds := m.Values;
  }

  lemma HandlesInTable(s: Fs)
    requires Tidy(s)
    ensures Abs(s).handles.Keys <= UpTo(s.params.maxOpen)
    ensures |Abs(s).handles| <= s.params.maxOpen
  {
    var keys := Abs(s).handles.Keys;
    forall h | h in keys ensures h in UpTo(s.params.maxOpen) {
      LiveHandles(s, Abs(s), h);
    }
    SubsetCard(keys, UpTo(s.params.maxOpen));
  }

  // No handle that a creation or a replay opened is ever closed, so the open-file
  // table bounds how many of them the broker can ever serve.
  lemma HandlesBound(b: BrokerState)
    requires BInv(b)
    ensures |b.boxes| + |Replaying(b)| <= |Abs(b.fs).handles| <= b.fs.params.maxOpen
  {
    hide Tidy, Inv, Represents, NoneStranded, Abs, Good, UpTo;
    HoldersOwn(Abs(b.fs), b);
    HoldersCount(b.owners, b.boxes, b.replays, Replaying(b));
    SubsetCard(b.owners.Keys, Abs(b.fs).handles.Keys);
    HandlesInTable(b.fs);
  }

  lemma HoldersCount(owners: map<nat, Owner>, boxes: map<CString, Box>, replays: map<nat, Replay>, live: set<nat>)
    requires forall path :: path in boxes ==> boxes[path].fd in owners && owners[boxes[path].fd] == Creator(path)
    requires forall id :: id in live ==> id in replays && !replays[id].Failed?
    requires forall id :: id in live ==> replays[id].fd in owners && owners[replays[id].fd] == Replayer(id)
    ensures |boxes| + |live| <= |owners.Keys|
  {
    var created := CreatorHandles(owners, boxes);
    var replaying := ReplayHandles(owners, replays, live);
    assert created !! replaying;
    assert |created + replaying| == |created| + |replaying|;
    SubsetCard(created + replaying, owners.Keys);
  }

  lemma HoldersOwn(a: AFs, b: BrokerState)
    requires Good(a, b)
    ensures b.owners.Keys <= a.handles.Keys
    ensures forall path :: path in b.boxes ==>
              b.boxes[path].fd in b.owners && b.owners[b.boxes[path].fd] == Creator(path)
    ensures forall id :: id in Replaying(b) ==>
              id in b.replays && !b.replays[id].Failed? &&
              b.replays[id].fd in b.owners && b.owners[b.replays[id].fd] == Replayer(id)
  {
    hide BoxOk, ReplayOk, HasBox;
    forall path | path in b.boxes ensures b.boxes[path].fd in b.owners && b.owners[b.boxes[path].fd] == Creator(path) {
      BoxHandle(a, b.owners, path, b.boxes[path]);
    }
    forall id | id in Replaying(b) ensures b.replays[id].fd in b.owners && b.owners[b.replays[id].fd] == Replayer(id) {
      ReplayHandle(a, b, id);
    }
  }

  lemma BoxHandle(a: AFs, owners: map<nat, Owner>, path: CString, box: Box)
    requires BoxOk(a, owners, path, box)
    ensures box.fd in owners && owners[box.fd] == Creator(path)
  {
  }

  lemma ReplayHandle(a: AFs, b: BrokerState, id: nat)
    requires id in b.replays && !b.replays[id].Failed? && ReplayOk(a, b.owners, b.boxes, id, b.replays[id])
    ensures b.replays[id].fd in b.owners && b.owners[b.replays[id].fd] == Replayer(id)
  {
  }

  // Once they have used up the table, every creation, message and replay fails.
  lemma WornOut(b: BrokerState, path: CString, body: Buffer, id: nat)
    requires BInv(b) && |b.boxes| + |Replaying(b)| == b.fs.params.maxOpen
    ensures Fine(CreateBox(b, path)) && CreateBox(b, path).value.boxes == b.boxes
    ensures At(b, path, Ready) && Terminated(body) ==>
              Fine(PublishStep(b, path, body)) && At(PublishStep(b, path, body).value, path, Dead)
    ensures Fine(SubscribeStep(b, id, path))
    ensures path in b.boxes && id !in b.replays ==> SubscribeStep(b, id, path).value.replays == b.replays[id := Failed]
  {
    hide Tidy, Inv, Represents, NoneStranded, Abs, Good, Step, Fine;
    AbsFacts(b.fs);
    CreateFine(b, path);
    PublishFine(b, path, body);
    SubscribeFine(b, id, path);
    OpenFails(b, path, TFS_O_CREAT);
    OpenFails(b, path, TFS_O_APPEND);
  }

  lemma OpenFails(b: BrokerState, path: CString, mode: Mode)
    requires BInv(b) && |b.boxes| + |Replaying(b)| == b.fs.params.maxOpen && !mode.trunc
    ensures Shaped(b.fs) && Step(b.fs, Open(path, mode)).Done? && Step(b.fs, Open(path, mode)).value.1 == Code(-1)
  {
    hide Tidy, Inv, Represents, NoneStranded, Abs, Good, Step, AOpen, OneMore, WithHandle;
    AbsFacts(b.fs);
    HandlesBound(b);
    Opening(b, path, mode, Replayer(0));
    HandlesInTable(b.fs);
    NoHandle(Abs(b.fs), path, mode);
  }

  lemma NoHandle(a: AFs, path: CString, mode: Mode)
    requires a.handles.Keys <= UpTo(a.params.maxOpen) && |a.handles| == a.params.maxOpen
    ensures AOpen(a, path, mode).1 == -1
  {
    SubsetCard(a.handles.Keys, UpTo(a.params.maxOpen));
    assert a.handles.Keys == UpTo(a.params.maxOpen);
  }

  // ---- from the beginning ----

  function InitBroker(fs: Fs): BrokerState {
    BrokerState(fs, map[], map[], map[])
  }

  // Every allowed run from tfs_init on, whatever memory contained before.
  lemma ReachableBoxes(junk: Fs, acts: seq<Action>)
    requires Shaped(junk) && junk.params.maxInodes > 0 && junk.params.maxBlocks > 0
    ensures TfsInit(junk).Done? && BInv(InitBroker(TfsInit(junk).value.0))
    ensures AllowedRun(InitBroker(TfsInit(junk).value.0), acts) ==>
              Fine(Exec(InitBroker(TfsInit(junk).value.0), acts))
  {
    hide Tidy, Inv, Represents, NoneStranded, Abs, TfsInit, BStep, Allowed;
    InitEmpty(junk);
    RunFine(InitBroker(TfsInit(junk).value.0), acts);
  }
}
