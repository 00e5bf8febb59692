// The broker's boxes over TecnicoFS, as threads interleave. Storing a message
// takes four steps (open, write, close, record) and a replay takes one step per
// call on the file system. Creating a box, registering and recording are each one
// critical section of box_list_mutex. That a replay holds this mutex as well is
// not relied on, because read_publisher_pipe_input unlocks it without holding it.
module BoxProtocol {
  import opened Prelude
  import opened Bytes
  import opened M = FsModel
  import opened FsAbstract
  import opened FsInvariant
  import opened FsSimulation
  import opened BoxLog
  import opened Framing

  // Where the publisher of a box stands in write_to_box. `Dead` is a session that
  // ended in an error: the publisher's name stays in the box for good.
  datatype Session =
    | Idle
    | Ready
    | Opened(fd: nat, msg: Message)
    | Wrote(fd: nat, msg: Message)
    | Closed(msg: Message)
    | Dead

  // `sizes` is the linked list messages_size; `log` records the messages whose
  // sizes were put there; `fd` is the handle that creation never closes.
  datatype Box = Box(fd: nat, sizes: seq<nat>, log: seq<Message>, session: Session)

  // Where a subscriber stands in get_old_messages. `junk` is what the malloc'ed
  // message buffer held at first, `sent` the texts that were framed and sent.
  datatype Replay =
    | Begun(path: CString, fd: nat)
    | Reading(path: CString, fd: nat, junk: Buffer, sent: seq<seq<byte>>)
    | Finished(path: CString, fd: nat, junk: Buffer, sent: seq<seq<byte>>)
    | Failed

  // Who called tfs_open for a live handle.
  datatype Owner = Creator(path: CString) | Publisher(path: CString) | Replayer(id: nat)

  datatype BrokerState = BrokerState(
    fs: Fs,
    boxes: map<CString, Box>,
    replays: map<nat, Replay>,
    owners: map<nat, Owner>)

  // A step of one thread. `Publish` brings the 1024 bytes of a publisher's frame,
  // `Restart` whatever malloc left in the replay's buffer; `GiveUp` is an error on
  // a pipe that ends a publisher's session.
  datatype Action =
    | Create(path: CString)
    | Register(path: CString)
    | Unregister(path: CString)
    | GiveUp(path: CString)
    | Publish(path: CString, body: Buffer)
    | Store(path: CString)
    | Shut(path: CString)
    | Record(path: CString)
    | Subscribe(id: nat, path: CString)
    | Restart(id: nat, junk: Buffer)
    | Fetch(id: nat)

  const SLASH: byte := 47
  const TFS_O_CREAT := Mode(true, false, false)
  const TFS_O_APPEND := Mode(false, false, true)

  // The ssize_t or int that a call returns.
  function ReturnCode(r: Reply): int {
    match r
    case Code(n) => n
    case Bytes(bytes) => |bytes|
  }

  // ---- steps ----

  // The state after a tfs_open that returned fd.
  function WithHandle(b: BrokerState, fs: Fs, fd: int, who: Owner): (c: BrokerState)
    ensures c.fs == fs && c.boxes == b.boxes && c.replays == b.replays
  {
    b.(fs := fs, owners := if fd < 0 then b.owners else b.owners[fd := who])
  }

  function SetSession(b: BrokerState, path: CString, session: Session): (c: BrokerState)
    requires path in b.boxes
    ensures c.fs == b.fs && c.boxes.Keys == b.boxes.Keys && c.replays == b.replays && c.owners == b.owners
  {
    b.(boxes := b.boxes[path := b.boxes[path].(session := session)])
  }

  function SetBox(b: BrokerState, path: CString, box: Box): (c: BrokerState)
    ensures c.fs == b.fs
  {
    b.(boxes := b.boxes[path := box])
  }

  function SetReplay(b: BrokerState, id: nat, replay: Replay): (c: BrokerState)
    ensures c.fs == b.fs
  {
    b.(replays := b.replays[id := replay])
  }

  // create_box_command
  function CreateBox(b: BrokerState, path: CString): (r: Outcome<BrokerState>)
    requires Shaped(b.fs)
    ensures r.Done? ==> Shaped(r.value.fs)
  {
    if path in b.boxes then Done(b)
    else
      var (fs, reply) :- Step(b.fs, Open(path, TFS_O_CREAT));
      var fd := ReturnCode(reply);
      var c := WithHandle(b, fs, fd, Creator(path));
      if fd < 0 then Done(c) else Done(SetBox(c, path, Box(fd, [], [], Idle)))
  }

  predicate At(b: BrokerState, path: CString, session: Session) {
    path in b.boxes && b.boxes[path].session == session
  }

  // register_publisher_command, remove_publisher_command, and a failure between
  // two messages
  function MoveSession(b: BrokerState, path: CString, from: Session, to: Session): (c: BrokerState)
    ensures c.fs == b.fs
  {
    if At(b, path, from) then SetSession(b, path, to) else b
  }

  // The four steps of write_to_box. A step of a thread that stands elsewhere does
  // nothing.
  function PublishStep(b: BrokerState, path: CString, body: Buffer): (r: Outcome<BrokerState>)
    requires Shaped(b.fs)
    ensures r.Done? ==> Shaped(r.value.fs)
  {
    if !At(b, path, Ready) then Done(b)
    else
      var msg :- ReceivedText(body);
      var (fs, reply) :- Step(b.fs, Open(path, TFS_O_APPEND));
      var fd := ReturnCode(reply);
      Done(SetSession(WithHandle(b, fs, fd, Publisher(path)), path, if fd < 0 then Dead else Opened(fd, msg)))
  }

  function StoreStep(b: BrokerState, path: CString): (r: Outcome<BrokerState>)
    requires Shaped(b.fs)
    ensures r.Done? ==> Shaped(r.value.fs)
  {
    if path !in b.boxes || !b.boxes[path].session.Opened? then Done(b)
    else
      var Opened(fd, msg) := b.boxes[path].session;
      var (fs, reply) :- Step(b.fs, Write(fd, msg));
      Done(SetSession(b.(fs := fs), path, if ReturnCode(reply) < 0 then Dead else Wrote(fd, msg)))
  }

  function ShutStep(b: BrokerState, path: CString): (r: Outcome<BrokerState>)
    requires Shaped(b.fs)
    ensures r.Done? ==> Shaped(r.value.fs)
  {
    if path !in b.boxes || !b.boxes[path].session.Wrote? then Done(b)
    else
      var Wrote(fd, msg) := b.boxes[path].session;
      var (fs, reply) :- Step(b.fs, Close(fd));
      if ReturnCode(reply) < 0 then Done(SetSession(b.(fs := fs), path, Dead))
      else Done(SetSession(b.(fs := fs, owners := b.owners - {fd}), path, Closed(msg)))
  }

  function RecordStep(b: BrokerState, path: CString): (c: BrokerState)
    ensures c.fs == b.fs
  {
    if path !in b.boxes || !b.boxes[path].session.Closed? then b
    else
      var box, msg := b.boxes[path], b.boxes[path].session.msg;
      SetBox(b, path, Box(box.fd, box.sizes + [|msg|], box.log + [msg], Ready))
  }

  // register_subscriber_command up to the tfs_open in get_old_messages
  function SubscribeStep(b: BrokerState, id: nat, path: CString): (r: Outcome<BrokerState>)
    requires Shaped(b.fs)
    ensures r.Done? ==> Shaped(r.value.fs)
  {
    if id in b.replays || path !in b.boxes then Done(b)
    else
      var (fs, reply) :- Step(b.fs, Open(path, TFS_O_APPEND));
      var fd := ReturnCode(reply);
      Done(SetReplay(WithHandle(b, fs, fd, Replayer(id)), id, if fd < 0 then Failed else Begun(path, fd)))
  }

  // The rest of get_old_messages. The next node of the list is looked up when it
  // is needed, and the first one without a test for NULL.
  function RestartStep(b: BrokerState, id: nat, junk: Buffer): (r: Outcome<BrokerState>)
    requires Shaped(b.fs)
    ensures r.Done? ==> Shaped(r.value.fs)
  {
    if id !in b.replays || !b.replays[id].Begun? then Done(b)
    else
      var Begun(path, fd) := b.replays[id];
      var (fs, reply) :- Step(b.fs, Rewind(fd));
      Done(SetReplay(b.(fs := fs), id, if ReturnCode(reply) < 0 then Failed else Reading(path, fd, junk, [])))
  }

  function FetchStep(b: BrokerState, id: nat): (r: Outcome<BrokerState>)
    requires Shaped(b.fs)
    ensures r.Done? ==> Shaped(r.value.fs)
  {
    if id !in b.replays || !b.replays[id].Reading? then Done(b)
    else
      var Reading(path, fd, junk, sent) := b.replays[id];
      var sizes := if path in b.boxes then b.boxes[path].sizes else [];
      if sent == [] && sizes == [] then Wild
      else if |sent| >= |sizes| then Done(SetReplay(b, id, Finished(path, fd, junk, sent)))
      else
        var (fs, reply) :- Step(b.fs, Read(fd, sizes[|sent|]));
        var replay :- AfterRead(path, fd, junk, sent, reply);
        Done(SetReplay(b.(fs := fs), id, replay))
  }

  // The buffer that a message is read into: cleared, except for the first one.
  function BufferFor(junk: Buffer, k: nat): Buffer {
    if k == 0 then junk else Zeros(TEXT_SIZE)
  }

  // Only the first read is checked for an error.
  function AfterRead(path: CString, fd: nat, junk: Buffer, sent: seq<seq<byte>>, reply: Reply): Outcome<Replay> {
    if reply.Code? && sent == [] then Done(Failed)
    else
      var text :- ReplayedText(BufferFor(junk, |sent|), if reply.Bytes? then reply.bytes else []);
      Done(Reading(path, fd, junk, sent + [text]))
  }

  function BStep(b: BrokerState, act: Action): (r: Outcome<BrokerState>)
    requires Shaped(b.fs)
    ensures r.Done? ==> Shaped(r.value.fs)
  {
    match act
    case Create(path) => CreateBox(b, path)
    case Register(path) => Done(MoveSession(b, path, Idle, Ready))
    case Unregister(path) => Done(MoveSession(b, path, Ready, Idle))
    case GiveUp(path) => Done(MoveSession(b, path, Ready, Dead))
    case Publish(path, body) => PublishStep(b, path, body)
    case Store(path) => StoreStep(b, path)
    case Shut(path) => ShutStep(b, path)
    case Record(path) => Done(RecordStep(b, path))
    case Subscribe(id, path) => SubscribeStep(b, id, path)
    case Restart(id, junk) => RestartStep(b, id, junk)
    case Fetch(id) => FetchStep(b, id)
  }

  // ---- the invariant ----

  // What is in the file and not yet in the list of sizes.
  function Pending(session: Session): seq<byte> {
    match session
    case Wrote(_, msg) => msg
    case Closed(msg) => msg
    case _ => []
  }

  // who holds handle fd, on file nm.
  ghost predicate Holds(a: AFs, owners: map<nat, Owner>, fd: nat, who: Owner, nm: Name) {
    fd in owners && owners[fd] == who && fd in a.handles && a.handles[fd].file == Some(nm)
  }

  ghost predicate SessionOk(a: AFs, owners: map<nat, Owner>, path: CString, box: Box)
    requires |path| > 0
  {
    match box.session
    case Opened(fd, _) =>
      Holds(a, owners, fd, Publisher(path), path[1..]) && a.handles[fd].offset == |Flatten(box.log)|
    case Wrote(fd, _) =>
      Holds(a, owners, fd, Publisher(path), path[1..])
    case _ => true
  }

  // The message on its way through write_to_box, if there is one.
  function InHand(session: Session): seq<Message> {
    match session
    case Opened(_, msg) => [msg]
    case Wrote(_, msg) => [msg]
    case Closed(msg) => [msg]
    case _ => []
  }

  // The file of a box is its recorded messages, and at most one pending one.
  ghost predicate BoxOk(a: AFs, owners: map<nat, Owner>, path: CString, box: Box) {
    && ValidPathname(path) && path[1..] in a.files
    && box.sizes == Sizes(box.log) && AllTexts(box.log) && AllTexts(InHand(box.session))
    && a.files[path[1..]] == Flatten(box.log) + Pending(box.session)
    && Holds(a, owners, box.fd, Creator(path), path[1..])
    && SessionOk(a, owners, path, box)
  }

  // The texts sent for the first messages of a log: the messages themselves,
  // except that junk may follow the first one up to the next NUL.
  ghost predicate SentFor(junk: Buffer, log: seq<Message>, sent: seq<seq<byte>>) {
    && |sent| <= |log|
    && forall k :: 0 <= k < |sent| ==> if k == 0 then RunsOn(junk, log[0], sent[0]) else sent[k] == log[k]
  }

  // A replay has been sent the first messages of the log, and its handle stands
  // behind them.
  ghost predicate ReplayOk(a: AFs, owners: map<nat, Owner>, boxes: map<CString, Box>, id: nat, replay: Replay) {
    replay.Failed? ||
    (&& replay.path in boxes && |replay.path| > 0
     && Holds(a, owners, replay.fd, Replayer(id), replay.path[1..])
     && (!replay.Begun? ==> SentFor(replay.junk, boxes[replay.path].log, replay.sent))
     && (replay.Reading? ==> a.handles[replay.fd].offset == |Flatten(boxes[replay.path].log[..|replay.sent|])|))
  }

  ghost predicate HasBox(boxes: map<CString, Box>, nm: Name) {
    exists path :: path in boxes && path == [SLASH] + nm
  }

  ghost predicate BoxesOk(a: AFs, owners: map<nat, Owner>, boxes: map<CString, Box>) {
    forall path :: path in boxes ==> BoxOk(a, owners, path, boxes[path])
  }

  ghost predicate ReplaysOk(a: AFs, owners: map<nat, Owner>, boxes: map<CString, Box>, replays: map<nat, Replay>) {
    forall id :: id in replays ==> ReplayOk(a, owners, boxes, id, replays[id])
  }

  // Only boxes have bytes in their files.
  ghost predicate OnlyBoxes(a: AFs, boxes: map<CString, Box>) {
    forall nm :: nm in a.files && a.files[nm] != [] ==> HasBox(boxes, nm)
  }

  ghost predicate Good(a: AFs, b: BrokerState) {
    && b.owners.Keys <= a.handles.Keys
    && BoxesOk(a, b.owners, b.boxes)
    && ReplaysOk(a, b.owners, b.boxes, b.replays)
    && OnlyBoxes(a, b.boxes)
  }

  ghost predicate BInv(b: BrokerState) {
    Tidy(b.fs) && Good(Abs(b.fs), b)
  }

  // What must hold when a step is taken, for a broker in a good state:
  //  - a publisher's frame is terminated;
  //  - a message is stored only where it still fits into the file's block (or
  //    there is no block for it anyway);
  //  - a replay rewinds a handle that does not stand at 0, that is, the file was
  //    not empty when it was opened;
  //  - a replay looks for its first message only when one is recorded, and finds
  //    a NUL behind it in the buffer.
  ghost predicate Allowed(b: BrokerState, act: Action)
    requires BInv(b)
  {
    hide Represents, Inv, NoneStranded;
    match act
    case Publish(path, body) =>
      At(b, path, Ready) ==> Terminated(body)
    case Store(path) =>
      path in b.boxes && b.boxes[path].session.Opened? ==> Fits(Abs(b.fs), b.boxes[path])
    case Restart(id, _) =>
      id in b.replays && b.replays[id].Begun? ==> Abs(b.fs).handles[b.replays[id].fd].offset > 0
    case Fetch(id) =>
      id in b.replays && b.replays[id].Reading? && b.replays[id].sent == [] ==>
        var log := b.boxes[b.replays[id].path].log;
        log != [] && NulFrom(b.replays[id].junk, |log[0]|)
    case _ => true
  }

  ghost predicate Fits(a: AFs, box: Box)
    requires box.session.Opened?
  {
    var written, msg := |Flatten(box.log)|, box.session.msg;
    || msg == []
    || written + |msg| <= a.params.blockSize
    || (written == 0 && !HasRoom(a))
  }
}
