// The broker's box list in place, over a TecnicoFS in place: the loops and calls
// of create_box_command, write_to_box, get_old_messages and the publisher
// commands, each proved to do what the steps of BoxProtocol do in a row.
module Broker {
  import opened Prelude
  import opened Bytes
  import opened BoxLog
  import opened Framing
  import M = FsModel
  import P = BoxProtocol
  import Progress = BoxProgress
  import R = BoxRuns
  import S = Sessions
  import T = Tfs

  // box_t: `publisher` is publisher_named_pipe, `sizes` the list messages_size.
  datatype BoxNode = BoxNode(name: CString, publisher: Option<CString>, sizes: seq<nat>)

  ghost predicate Distinct(nodes: seq<BoxNode>) {
    forall i, j :: 0 <= i < j < |nodes| ==> nodes[i].name != nodes[j].name
  }

  ghost predicate InList(nodes: seq<BoxNode>, name: CString) {
    exists i :: 0 <= i < |nodes| && nodes[i].name == name
  }

  // Who publishes to which box.
  ghost function Registry(nodes: seq<BoxNode>): (reg: S.Registry)
    requires Distinct(nodes)
    ensures forall i :: 0 <= i < |nodes| ==> nodes[i].name in reg && reg[nodes[i].name] == nodes[i].publisher
    ensures forall name :: name in reg ==> InList(nodes, name)
  {
    assert forall i :: 0 <= i < |nodes| ==> InList(nodes, nodes[i].name);
    map i | 0 <= i < |nodes| :: nodes[i].name := nodes[i].publisher
  }

  ghost predicate NodeOf(node: BoxNode, box: P.Box) {
    node.sizes == box.sizes && (node.publisher.None? <==> box.session.Idle?)
  }

  // The list holds the boxes of the protocol, each once.
  ghost predicate Matches(nodes: seq<BoxNode>, boxes: map<CString, P.Box>) {
    && (forall i :: 0 <= i < |nodes| ==> nodes[i].name in boxes && NodeOf(nodes[i], boxes[nodes[i].name]))
    && (forall name :: name in boxes ==> InList(nodes, name))
    && Distinct(nodes)
  }

  lemma MatchesSet(nodes: seq<BoxNode>, boxes: map<CString, P.Box>, i: nat, node: BoxNode, box: P.Box)
    requires Matches(nodes, boxes) && i < |nodes| && node.name == nodes[i].name && NodeOf(node, box)
    ensures Matches(nodes[i := node], boxes[node.name := box])
  {
    var nodes' := nodes[i := node];
    forall name | name in boxes[node.name := box] ensures InList(nodes', name) {
      assert InList(nodes, name);
      var j :| 0 <= j < |nodes| && nodes[j].name == name;
      assert nodes'[j].name == name;
    }
  }

  lemma MatchesDistinct(nodes: seq<BoxNode>, boxes: map<CString, P.Box>)
    requires Matches(nodes, boxes)
    ensures Distinct(nodes)
  {
  }

  lemma MatchesFacts(nodes: seq<BoxNode>, boxes: map<CString, P.Box>, i: nat)
    requires Matches(nodes, boxes) && i < |nodes|
    ensures Distinct(nodes) && nodes[i].name in boxes && NodeOf(nodes[i], boxes[nodes[i].name])
  {
  }

  lemma MatchesSession(nodes: seq<BoxNode>, boxes: map<CString, P.Box>, name: CString, session: P.Session)
    requires Matches(nodes, boxes) && name in boxes && !boxes[name].session.Idle? && !session.Idle?
    ensures Matches(nodes, boxes[name := boxes[name].(session := session)])
  {
    hide InList;
  }

  lemma MatchesNew(nodes: seq<BoxNode>, boxes: map<CString, P.Box>, node: BoxNode, box: P.Box)
    requires Matches(nodes, boxes) && node.name !in boxes && NodeOf(node, box)
    ensures Matches(nodes + [node], boxes[node.name := box])
  {
    var nodes' := nodes + [node];
    forall name | name in boxes[node.name := box] ensures InList(nodes', name) {
      if name == node.name {
        assert nodes'[|nodes|].name == name;
      } else {
        assert InList(nodes, name);
        var j :| 0 <= j < |nodes| && nodes[j].name == name;
        assert nodes'[j].name == name;
      }
    }
  }

  lemma NameRegistered(nodes: seq<BoxNode>, boxes: map<CString, P.Box>, name: CString, i: nat)
    requires Matches(nodes, boxes) && i <= |nodes|
    requires i < |nodes| ==> nodes[i].name == name
    requires i == |nodes| ==> forall j :: 0 <= j < i ==> nodes[j].name != name
    ensures (i < |nodes| <==> name in boxes) && (name in boxes <==> name in Registry(nodes))
    ensures i < |nodes| ==> Registry(nodes)[name] == nodes[i].publisher && NodeOf(nodes[i], boxes[name])
  {
    assert name in boxes ==> InList(nodes, name);
  }

  lemma RegistrySet(nodes: seq<BoxNode>, i: nat, node: BoxNode)
    requires Distinct(nodes) && i < |nodes| && node.name == nodes[i].name
    ensures Distinct(nodes[i := node])
    ensures Registry(nodes[i := node]) == Registry(nodes)[node.name := node.publisher]
  {
    hide Registry;
    var nodes' := nodes[i := node];
    var before, after := Registry(nodes)[node.name := node.publisher], Registry(nodes');
    forall name | name in before ensures name in after && after[name] == before[name] {
      assert nodes'[i].name == node.name;
      if name != node.name {
        assert InList(nodes, name);
        var j :| 0 <= j < |nodes| && nodes[j].name == name;
        assert nodes'[j] == nodes[j];
      }
    }
    forall name | name in after ensures name in before {
      assert InList(nodes', name);
      var j :| 0 <= j < |nodes'| && nodes'[j].name == name;
      assert nodes[j].name == name;
    }
  }

  // A call on the class, as a step of the file system.
  ghost function AsStep(t: M.Fs, r: Outcome<int>): Outcome<(M.Fs, M.Reply)> {
    if r.Done? then Done((t, M.Code(r.value))) else r.PropagateFailure()
  }

  ghost function AsRead(t: M.Fs, r: Outcome<Option<seq<byte>>>): Outcome<(M.Fs, M.Reply)> {
    if !r.Done? then r.PropagateFailure()
    else Done((t, if r.value.None? then M.Code(-1) else M.Bytes(r.value.value)))
  }

  lemma OpenIsStep(s: M.Fs, t: M.Fs, name: CString, mode: M.Mode, r: Outcome<int>)
    requires M.Shaped(s) && T.Ends(if s.locked then Blocked else M.TfsOpen(s, name, mode), t, r)
    ensures M.Step(s, M.Open(name, mode)) == AsStep(t, r)
  {
    hide M.TfsOpen;
  }

  lemma WriteIsStep(s: M.Fs, t: M.Fs, h: int, buf: seq<byte>, r: Outcome<int>)
    requires M.Shaped(s) && T.Ends(if s.locked then Blocked else M.TfsWrite(s, h, buf), t, r)
    ensures M.Step(s, M.Write(h, buf)) == AsStep(t, r)
  {
    hide M.TfsWrite;
  }

  lemma CloseIsStep(s: M.Fs, t: M.Fs, h: int, r: Outcome<int>)
    requires M.Shaped(s) && T.Ends(if s.locked then Blocked else Done(M.TfsClose(s, h)), t, r)
    ensures M.Step(s, M.Close(h)) == AsStep(t, r)
  {
    hide M.TfsClose;
  }

  lemma RewindIsStep(s: M.Fs, t: M.Fs, h: int, r: Outcome<int>)
    requires M.Shaped(s) && T.Ends(if s.locked then Blocked else M.TfsRewindOffset(s, h), t, r)
    ensures M.Step(s, M.Rewind(h)) == AsStep(t, r)
  {
    hide M.TfsRewindOffset;
  }

  lemma ReadIsStep(s: M.Fs, t: M.Fs, h: int, len: nat, r: Outcome<Option<seq<byte>>>)
    requires M.Shaped(s) && T.Ends(if s.locked then Blocked else M.TfsRead(s, h, len), t, r)
    ensures M.Step(s, M.Read(h, len)) == AsRead(t, r)
  {
    hide M.TfsRead;
  }

  // The four steps in a row.
  lemma MessageSteps(b: P.BrokerState, name: CString, body: Buffer)
    requires M.Shaped(b.fs)
    ensures R.Exec(b, Progress.WholeMessage(name, body)) ==
            var published :- P.PublishStep(b, name, body);
            var stored :- P.StoreStep(published, name);
            LastSteps(stored, name)
  {
    hide P.PublishStep, P.StoreStep, P.ShutStep, P.RecordStep, R.Exec;
    var last := [P.Shut(name), P.Record(name)];
    assert Progress.WholeMessage(name, body) == [P.Publish(name, body)] + ([P.Store(name)] + last);
    R.ExecCons(b, P.Publish(name, body), [P.Store(name)] + last);
    var published := P.PublishStep(b, name, body);
    if published.Done? {
      R.ExecCons(published.value, P.Store(name), last);
      if P.StoreStep(published.value, name).Done? {
        LastStepsRun(P.StoreStep(published.value, name).value, name);
      }
    }
  }

  lemma UnterminatedIsWild(b: P.BrokerState, name: CString, body: Buffer)
    requires M.Shaped(b.fs) && P.At(b, name, P.Ready) && !Terminated(body)
    ensures P.PublishStep(b, name, body) == Wild
  {
  }

  function LastSteps(b: P.BrokerState, name: CString): Outcome<P.BrokerState>
    requires M.Shaped(b.fs)
  {
    var shut :- P.ShutStep(b, name);
    Done(P.RecordStep(shut, name))
  }

  lemma LastStepsRun(b: P.BrokerState, name: CString)
    requires M.Shaped(b.fs)
    ensures R.Exec(b, [P.Shut(name), P.Record(name)]) == LastSteps(b, name)
  {
    hide P.ShutStep, P.RecordStep;
    R.ExecCons(b, P.Shut(name), [P.Record(name)]);
    assert [P.Shut(name), P.Record(name)] == [P.Shut(name)] + [P.Record(name)];
  }

  // ---- write_to_box on the tables and the box list, whoever calls it ----

  // The position of the first node of that name, or the length of the list.
  function IndexOf(nodes: seq<BoxNode>, name: CString): (i: nat)
    ensures i <= |nodes| && (i < |nodes| ==> nodes[i].name == name)
    ensures forall j :: 0 <= j < i ==> nodes[j].name != name
  {
    if nodes == [] || nodes[0].name == name then 0 else 1 + IndexOf(nodes[1..], name)
  }

  lemma IndexIs(nodes: seq<BoxNode>, name: CString, i: nat)
    requires i <= |nodes| && (i < |nodes| ==> nodes[i].name == name)
    requires forall j :: 0 <= j < i ==> nodes[j].name != name
    ensures IndexOf(nodes, name) == i
  {
  }

  function WithSize(nodes: seq<BoxNode>, name: CString, n: nat): (seq<BoxNode>, int) {
    var i := IndexOf(nodes, name);
    if i == |nodes| then (nodes, -1) else (nodes[i := nodes[i].(sizes := nodes[i].sizes + [n])], 0)
  }

  function WriteOnTables(s: M.Fs, nodes: seq<BoxNode>, name: CString, msg: Message)
    : Outcome<(M.Fs, seq<BoxNode>, int)>
    requires M.Shaped(s)
  {
    var (s1, reply) :- M.Step(s, M.Open(name, P.TFS_O_APPEND));
    var fd := P.ReturnCode(reply);
    if fd < 0 then Done((s1, nodes, -1))
    else
      var (s2, wrote) :- M.Step(s1, M.Write(fd, msg));
      if P.ReturnCode(wrote) < 0 then Done((s2, nodes, -1))
      else
        var (s3, closed) :- M.Step(s2, M.Close(fd));
        if P.ReturnCode(closed) < 0 then Done((s3, nodes, -1))
        else
          var (nodes', r) := WithSize(nodes, name, |msg|);
          Done((s3, nodes', r))
  }

  // The publisher of a box, between two messages, takes the protocol's four steps.
  lemma TablesFollow(b: P.BrokerState, nodes: seq<BoxNode>, name: CString, msg: Message, body: Buffer)
    requires M.Shaped(b.fs) && Matches(nodes, b.boxes) && P.At(b, name, P.Ready) && ReceivedText(body) == Done(msg)
    ensures var t, p := WriteOnTables(b.fs, nodes, name, msg), R.Exec(b, Progress.WholeMessage(name, body));
            if t.Done?
            then p.Done? && p.value.fs == t.value.0 && Matches(t.value.1, p.value.boxes) &&
                 t.value.2 == if P.At(p.value, name, P.Ready) then 0 else -1
            else p == t.PropagateFailure()
  {
    hide M.Step, R.Exec, Matches, ReceivedText, P.StoreStep, LastSteps, IndexOf;
    MessageSteps(b, name, body);
    var reply := M.Step(b.fs, M.Open(name, P.TFS_O_APPEND));
    if reply.Done? {
      var c := P.PublishStep(b, name, body).value;
      var fd := P.ReturnCode(reply.value.1);
      MatchesSession(nodes, b.boxes, name, if fd < 0 then P.Dead else P.Opened(fd, msg));
      if fd < 0 {
        DeadEnds(c, name);
      } else {
        StoreFollows(c, nodes, name, fd, msg);
      }
    }
  }

  lemma DeadEnds(c: P.BrokerState, name: CString)
    requires M.Shaped(c.fs) && P.At(c, name, P.Dead)
    ensures P.StoreStep(c, name) == Done(c) && LastSteps(c, name) == Done(c)
  {
  }

  // From the write on.
  lemma StoreFollows(c: P.BrokerState, nodes: seq<BoxNode>, name: CString, fd: nat, msg: Message)
    requires M.Shaped(c.fs) && Matches(nodes, c.boxes) && P.At(c, name, P.Opened(fd, msg))
    ensures var p := (var stored :- P.StoreStep(c, name); LastSteps(stored, name));
            var wrote := M.Step(c.fs, M.Write(fd, msg));
            if !wrote.Done? then p == wrote.PropagateFailure()
            else if P.ReturnCode(wrote.value.1) < 0
            then p.Done? && p.value.fs == wrote.value.0 && Matches(nodes, p.value.boxes) && P.At(p.value, name, P.Dead)
            else
              var closed := M.Step(wrote.value.0, M.Close(fd));
              if !closed.Done? then p == closed.PropagateFailure()
              else if P.ReturnCode(closed.value.1) < 0
              then p.Done? && p.value.fs == closed.value.0 && Matches(nodes, p.value.boxes) &&
                   P.At(p.value, name, P.Dead)
              else p.Done? && p.value.fs == closed.value.0 && WithSize(nodes, name, |msg|).1 == 0 &&
                   Matches(WithSize(nodes, name, |msg|).0, p.value.boxes) && P.At(p.value, name, P.Ready)
  {
    hide M.Step, Matches, WithSize, LastSteps;
    var wrote := M.Step(c.fs, M.Write(fd, msg));
    if wrote.Done? {
      var d := P.StoreStep(c, name).value;
      var n := P.ReturnCode(wrote.value.1);
      MatchesSession(nodes, c.boxes, name, if n < 0 then P.Dead else P.Wrote(fd, msg));
      if n < 0 {
        DeadEnds(d, name);
      } else {
        CloseFollows(d, nodes, name, fd, msg);
      }
    }
  }

  // From the close on.
  lemma CloseFollows(d: P.BrokerState, nodes: seq<BoxNode>, name: CString, fd: nat, msg: Message)
    requires M.Shaped(d.fs) && Matches(nodes, d.boxes) && P.At(d, name, P.Wrote(fd, msg))
    ensures var p, closed := LastSteps(d, name), M.Step(d.fs, M.Close(fd));
            if !closed.Done? then p == closed.PropagateFailure()
            else if P.ReturnCode(closed.value.1) < 0
            then p.Done? && p.value.fs == closed.value.0 && Matches(nodes, p.value.boxes) && P.At(p.value, name, P.Dead)
            else p.Done? && p.value.fs == closed.value.0 && WithSize(nodes, name, |msg|).1 == 0 &&
                 Matches(WithSize(nodes, name, |msg|).0, p.value.boxes) && P.At(p.value, name, P.Ready)
  {
    hide M.Step, Matches, IndexOf;
    var closed := M.Step(d.fs, M.Close(fd));
    if closed.Done? {
      var n := P.ReturnCode(closed.value.1);
      MatchesSession(nodes, d.boxes, name, if n < 0 then P.Dead else P.Closed(msg));
      if n >= 0 {
        SizeFollows(P.ShutStep(d, name).value, nodes, name, msg);
      }
    }
  }

  lemma SizeFollows(c: P.BrokerState, nodes: seq<BoxNode>, name: CString, msg: Message)
    requires Matches(nodes, c.boxes) && P.At(c, name, P.Closed(msg))
    ensures WithSize(nodes, name, |msg|).1 == 0 && P.At(P.RecordStep(c, name), name, P.Ready)
    ensures Matches(WithSize(nodes, name, |msg|).0, P.RecordStep(c, name).boxes)
  {
    hide Matches, Registry;
    var i := IndexOf(nodes, name);
    NameRegistered(nodes, c.boxes, name, i);
    MatchesFacts(nodes, c.boxes, i);
    MatchesSet(nodes, c.boxes, i, nodes[i].(sizes := nodes[i].sizes + [|msg|]), P.RecordStep(c, name).boxes[name]);
  }

  // How many messages the replay of a box will look for.
  function MessageCount(b: P.BrokerState, name: CString): nat {
    if name in b.boxes then |b.boxes[name].sizes| else 0
  }

  // A replay that has ended, or never began, takes no more steps.
  lemma {:induction false} FetchesAfterEnd(b: P.BrokerState, id: nat, n: nat)
    requires M.Shaped(b.fs) && (id in b.replays ==> !b.replays[id].Reading?)
    ensures R.Exec(b, R.Fetches(id, n)) == Done(b)
  {
    if n == 0 {
    } else {
      R.ExecFetches(b, id, n);
      FetchesAfterEnd(b, id, n - 1);
    }
  }

  // From the rewind on.
  function FromRestart(b: P.BrokerState, id: nat, junk: Buffer, n: nat): Outcome<P.BrokerState>
    requires M.Shaped(b.fs)
  {
    var restarted :- P.RestartStep(b, id, junk);
    R.Exec(restarted, R.Fetches(id, n + 1))
  }

  lemma RestartAfterEnd(b: P.BrokerState, id: nat, junk: Buffer, n: nat)
    requires M.Shaped(b.fs) && (id in b.replays ==> b.replays[id].Failed?)
    ensures FromRestart(b, id, junk, n) == Done(b)
  {
    FetchesAfterEnd(b, id, n + 1);
  }

  lemma ReplayOfNothing(b: P.BrokerState, id: nat, name: CString, junk: Buffer, n: nat)
    requires M.Shaped(b.fs) && id !in b.replays && name !in b.boxes
    ensures R.Exec(b, R.WholeReplay(id, name, junk, n)) == Done(b)
  {
    RestartAfterEnd(b, id, junk, n);
    ReplaySteps(b, id, name, junk, n);
  }

  lemma FetchNothing(b: P.BrokerState, id: nat)
    requires M.Shaped(b.fs) && id in b.replays && b.replays[id].Reading? && b.replays[id].sent == []
    requires b.replays[id].path in b.boxes && b.boxes[b.replays[id].path].sizes == []
    ensures P.FetchStep(b, id) == Wild
  {
  }

  lemma FetchEnd(b: P.BrokerState, id: nat)
    requires M.Shaped(b.fs) && id in b.replays && b.replays[id].Reading? && b.replays[id].sent != []
    requires b.replays[id].path in b.boxes && |b.boxes[b.replays[id].path].sizes| == |b.replays[id].sent|
    ensures var replay := b.replays[id];
            P.FetchStep(b, id) == Done(P.SetReplay(b, id, P.Finished(replay.path, replay.fd, replay.junk, replay.sent)))
  {
  }

  // The steps of a whole replay, when the replay fails early and when it does not.
  lemma ReplaySteps(b: P.BrokerState, id: nat, name: CString, junk: Buffer, n: nat)
    requires M.Shaped(b.fs)
    ensures R.Exec(b, R.WholeReplay(id, name, junk, n)) ==
            var begun :- P.SubscribeStep(b, id, name);
            FromRestart(begun, id, junk, n)
  {
    hide P.SubscribeStep, P.RestartStep, R.Fetches, R.Exec;
    var rest := [P.Restart(id, junk)] + R.Fetches(id, n + 1);
    assert R.WholeReplay(id, name, junk, n) == [P.Subscribe(id, name)] + rest;
    R.ExecCons(b, P.Subscribe(id, name), rest);
    var begun := P.SubscribeStep(b, id, name);
    if begun.Done? {
      R.ExecCons(begun.value, P.Restart(id, junk), R.Fetches(id, n + 1));
    }
  }

  // The size of the message that a replay reads next.
  ghost function NextSize(b: P.BrokerState, replay: P.Replay): Option<nat>
    requires replay.Reading?
  {
    if replay.path in b.boxes && |replay.sent| < |b.boxes[replay.path].sizes|
    then Some(b.boxes[replay.path].sizes[|replay.sent|])
    else None
  }

  // The replay has sent one more text, in this frame.
  ghost predicate OneMoreSent(before: P.Replay, after: P.Replay, frame: seq<byte>)
    requires before.Reading?
  {
    exists text :: IsText(text) && frame == TextFrame(OP_SUBSCRIBER_MESSAGE, text) && after == SentMore(before, text)
  }

  function SentMore(replay: P.Replay, text: seq<byte>): P.Replay
    requires replay.Reading?
  {
    P.Reading(replay.path, replay.fd, replay.junk, replay.sent + [text])
  }

  // A fetch, told from its read: the first one may fail, and the text is what the
  // buffer then holds up to a NUL.
  lemma FetchIs(b: P.BrokerState, id: nat, fs: M.Fs, stored: Option<seq<byte>>)
    requires M.Shaped(b.fs) && M.Shaped(fs) && id in b.replays && b.replays[id].Reading?
    requires NextSize(b, b.replays[id]).Some?
    requires M.Step(b.fs, M.Read(b.replays[id].fd, NextSize(b, b.replays[id]).value)) ==
             Done((fs, if stored.None? then M.Code(-1) else M.Bytes(stored.value)))
    ensures var replay := b.replays[id];
            P.FetchStep(b, id) ==
            if stored.None? && replay.sent == [] then Done(P.SetReplay(b.(fs := fs), id, P.Failed))
            else
              var text :- ReplayedText(P.BufferFor(replay.junk, |replay.sent|), stored.UnwrapOr([]));
              Done(P.SetReplay(b.(fs := fs), id, SentMore(replay, text)))
  {
    hide M.Step, ReplayedText;
  }

  lemma FetchStops(b: P.BrokerState, id: nat)
    requires M.Shaped(b.fs) && id in b.replays && b.replays[id].Reading? && NextSize(b, b.replays[id]).Some?
    requires var r := M.Step(b.fs, M.Read(b.replays[id].fd, NextSize(b, b.replays[id]).value)); !r.Done?
    ensures P.FetchStep(b, id) ==
            M.Step(b.fs, M.Read(b.replays[id].fd, NextSize(b, b.replays[id]).value)).PropagateFailure()
  {
    hide M.Step;
  }

  // The frames are those of the texts that the replay has sent so far.
  ghost predicate Sending(b: P.BrokerState, id: nat, name: CString, fd: nat, frames: seq<seq<byte>>) {
    && id in b.replays && b.replays[id].Reading? && b.replays[id].path == name && b.replays[id].fd == fd
    && AllTexts(b.replays[id].sent) && frames == FramesOf(b.replays[id].sent)
  }

  lemma SendingMore(before: P.BrokerState, b: P.BrokerState, id: nat, name: CString, fd: nat,
                    frames: seq<seq<byte>>, frame: seq<byte>)
    requires Sending(before, id, name, fd, frames) && id in b.replays
    requires OneMoreSent(before.replays[id], b.replays[id], frame)
    ensures Sending(b, id, name, fd, frames + [frame])
  {
    hide TextFrame, IsText;
  }

  lemma SendingStarts(b: P.BrokerState, id: nat, name: CString, fd: nat)
    requires id in b.replays && b.replays[id].Reading? && b.replays[id].path == name && b.replays[id].fd == fd
    requires b.replays[id].sent == []
    ensures Sending(b, id, name, fd, [])
  {
  }

  lemma SendingFacts(b: P.BrokerState, id: nat, name: CString, fd: nat, frames: seq<seq<byte>>, sizes: seq<nat>)
    requires Sending(b, id, name, fd, frames) && name in b.boxes && b.boxes[name].sizes == sizes
    ensures id in b.replays && b.replays[id].Reading? && b.replays[id].fd == fd && b.replays[id].path == name
    ensures |b.replays[id].sent| == |frames|
    ensures |frames| < |sizes| ==> NextSize(b, b.replays[id]) == Some(sizes[|frames|])
  {
    hide TextFrame, IsText;
  }

  lemma SendingEnds(b: P.BrokerState, id: nat, name: CString, fd: nat, frames: seq<seq<byte>>)
    requires Sending(b, id, name, fd, frames)
    ensures var end := P.Finished(name, fd, b.replays[id].junk, b.replays[id].sent);
            Answered(P.SetReplay(b, id, end), id, frames)
  {
    hide TextFrame, IsText;
  }

  // The replay has ended and all its texts were sent, in these frames.
  ghost predicate Answered(b: P.BrokerState, id: nat, frames: seq<seq<byte>>) {
    && id in b.replays && b.replays[id].Finished?
    && AllTexts(b.replays[id].sent) && frames == FramesOf(b.replays[id].sent)
  }

  class Broker {
    const tfs: T.Tfs
    var boxes: seq<BoxNode>
    // What the protocol says about the box list, with its history.
    ghost var view: P.BrokerState

    ghost predicate Valid()
      reads this, tfs.Repr()
    {
      tfs.Valid() && view.fs == tfs.State() && Matches(boxes, view.boxes)
    }

    // The call did what the protocol's steps do, or failed as they do.
    ghost predicate Ran(steps: Outcome<P.BrokerState>, r: Outcome<int>)
      reads this, tfs.Repr()
    {
      if steps.Done? then r.Done? && Valid() && view == steps.value else r == steps.PropagateFailure()
    }

    constructor (tfs: T.Tfs)
      requires tfs.Valid()
      ensures this.tfs == tfs && Valid() && view == R.InitBroker(tfs.State())
    {
      this.tfs := tfs;
      boxes := [];
      view := R.InitBroker(tfs.State());
    }

    // The position of the box in the list; |boxes| stands for the null pointer.
    method FindBoxByName(name: CString) returns (i: nat)
      ensures i == IndexOf(boxes, name) <= |boxes|
      ensures i < |boxes| ==> boxes[i].name == name
      ensures forall j :: 0 <= j < i ==> boxes[j].name != name
    {
      i := 0;
      while i < |boxes|
        invariant i <= |boxes|
        invariant forall j :: 0 <= j < i ==> boxes[j].name != name
      {
        if boxes[i].name == name {
          IndexIs(boxes, name, i);
          return;
        }
        i := i + 1;
      }
      IndexIs(boxes, name, i);
    }

    method CreateBox(name: CString) returns (r: Outcome<int>)
      requires Valid()
      modifies this, tfs.Repr()
      ensures Ran(P.CreateBox(old(view), name), r)
      ensures r.Done? ==> r.value == if name !in old(view.boxes) && name in view.boxes then 0 else -1
      ensures r.Done? ==> boxes == if r.value == 0 then old(boxes) + [BoxNode(name, None, [])] else old(boxes)
    {
      hide M.Step, M.TfsOpen, Matches, Registry, Distinct, InList;
      var i := FindBoxByName(name);
      NameRegistered(boxes, view.boxes, name, i);
      if i < |boxes| {
        return Done(-1);
      }
      var fd := tfs.TfsOpen(name, P.TFS_O_CREAT);
      OpenIsStep(view.fs, tfs.State(), name, P.TFS_O_CREAT, fd);
      if !fd.Done? {
        return fd;
      }
      ghost var before := view.boxes;
      view := P.CreateBox(view, name).value;
      if fd.value < 0 {
        return Done(-1);
      }
      MatchesNew(boxes, before, BoxNode(name, None, []), view.boxes[name]);
      boxes := boxes + [BoxNode(name, None, [])];
      return Done(0);
    }

    method SetPublisher(i: nat, pipe: Option<CString>)
      requires Distinct(boxes) && i < |boxes|
      modifies `boxes
      ensures boxes == old(boxes)[i := old(boxes)[i].(publisher := pipe)] && Distinct(boxes)
      ensures Registry(boxes) == old(Registry(boxes))[old(boxes[i].name) := pipe]
    {
      hide Registry, Distinct;
      var node := boxes[i].(publisher := pipe);
      RegistrySet(boxes, i, node);
      boxes := boxes[i := node];
    }

    method RegisterPublisher(pipe: CString, name: CString) returns (code: int)
      requires Valid()
      modifies this
      ensures Valid() && P.BStep(old(view), P.Register(name)) == Done(view)
      ensures S.Perform(old(Registry(boxes)), S.Register(pipe, name)) == Done((Registry(boxes), code))
    {
      hide Matches, Registry, Distinct;
      var i := FindBoxByName(name);
      NameRegistered(boxes, view.boxes, name, i);
      if i == |boxes| || boxes[i].publisher.Some? {
        return -1;
      }
      MatchesFacts(boxes, view.boxes, i);
      MatchesSet(boxes, view.boxes, i, boxes[i].(publisher := Some(pipe)), view.boxes[name].(session := P.Ready));
      SetPublisher(i, Some(pipe));
      view := P.MoveSession(view, name, P.Idle, P.Ready);
      return 0;
    }

    // Removing a name that is not there is strcmp with a null pointer. The thread of
    // a publisher removes it only when it is not in the middle of write_to_box.
    method RemovePublisher(pipe: CString, name: CString) returns (r: Outcome<int>)
      requires Valid()
      modifies this
      ensures Distinct(boxes)
      ensures if r.Done? then S.Perform(old(Registry(boxes)), S.Remove(pipe, name)) == Done((Registry(boxes), r.value))
              else S.Perform(old(Registry(boxes)), S.Remove(pipe, name)) == Wild && r == Wild
      ensures r == Done(0) && old(P.At(view, name, P.Ready)) ==>
                Valid() && P.BStep(old(view), P.Unregister(name)) == Done(view)
      ensures r == Done(0) || (Valid() && view == old(view) && boxes == old(boxes))
    {
      hide Matches, Registry, Distinct;
      var i := FindBoxByName(name);
      NameRegistered(boxes, view.boxes, name, i);
      MatchesDistinct(boxes, view.boxes);
      if i == |boxes| {
        return Done(-1);
      }
      if boxes[i].publisher.None? {
        return Wild;
      }
      if boxes[i].publisher.value != pipe {
        return Done(-1);
      }
      if P.At(view, name, P.Ready) {
        MatchesSet(boxes, view.boxes, i, boxes[i].(publisher := None), view.boxes[name].(session := P.Idle));
        view := P.MoveSession(view, name, P.Ready, P.Idle);
      }
      SetPublisher(i, None);
      return Done(0);
    }

    // The call did the same to the tables and the box list, or failed the same way.
    ghost predicate DidOnTables(t: Outcome<(M.Fs, seq<BoxNode>, int)>, r: Outcome<int>)
      requires tfs.Valid()
      reads this, tfs.Repr()
    {
      if t.Done? then r == Done(t.value.2) && tfs.State() == t.value.0 && boxes == t.value.1
      else r == t.PropagateFailure()
    }

    // What read_publisher_pipe_input does with the bytes behind the code of a frame.
    method ReceiveMessage(name: CString, message: array<byte>) returns (r: Outcome<int>)
      requires tfs.Valid() && message.Length == TEXT_SIZE
      modifies this, tfs.Repr()
      ensures var text := ReceivedText(old(message[..]));
              if text.Done? then DidOnTables(WriteOnTables(old(tfs.State()), old(boxes), name, text.value), r)
              else r == Wild
      ensures old(Valid() && P.At(view, name, P.Ready)) ==>
                Ran(R.Exec(old(view), Progress.WholeMessage(name, old(message[..]))), r) &&
                (r.Done? ==> r.value == if P.At(view, name, P.Ready) then 0 else -1)
    {
      hide P.PublishStep, R.Exec, Matches, WriteOnTables;
      ghost var body: Buffer := message[..];
      var n := MeasureString(message);
      if !n.Done? {
        if Valid() && P.At(view, name, P.Ready) {
          MessageSteps(view, name, body);
          UnterminatedIsWild(view, name, body);
        }
        return Wild;
      }
      r := WriteToBox(name, message[..n.value], body);
    }

    // For any caller and any name; the publisher of a box calls it between two
    // messages, with the text of the body it received.
    method WriteToBox(name: CString, msg: Message, ghost body: Buffer) returns (r: Outcome<int>)
      requires tfs.Valid()
      modifies this, tfs.Repr()
      ensures DidOnTables(WriteOnTables(old(tfs.State()), old(boxes), name, msg), r)
      ensures old(Valid() && P.At(view, name, P.Ready)) && ReceivedText(body) == Done(msg) ==>
                Ran(R.Exec(old(view), Progress.WholeMessage(name, body)), r) &&
                (r.Done? ==> r.value == if P.At(view, name, P.Ready) then 0 else -1)
    {
      hide R.Exec, Matches, WriteOnTables, ReceivedText;
      ghost var start, own := view, Valid() && P.At(view, name, P.Ready) && ReceivedText(body) == Done(msg);
      if own {
        TablesFollow(view, boxes, name, msg, body);
      }
      r := OpenWriteClose(name, msg);
      if own && r.Done? {
        view := R.Exec(start, Progress.WholeMessage(name, body)).value;
      }
    }

    // The calls of write_to_box.
    method OpenWriteClose(name: CString, msg: Message) returns (r: Outcome<int>)
      requires tfs.Valid()
      modifies `boxes, tfs.Repr()
      ensures DidOnTables(WriteOnTables(old(tfs.State()), old(boxes), name, msg), r)
    {
      hide M.Step, M.TfsOpen, M.TfsWrite, M.TfsClose, IndexOf;
      ghost var s0 := tfs.State();
      var fd := tfs.TfsOpen(name, P.TFS_O_APPEND);
      ghost var s1 := tfs.State();
      OpenIsStep(s0, s1, name, P.TFS_O_APPEND, fd);
      if !fd.Done? || fd.value < 0 {
        return if fd.Done? then Done(-1) else fd;
      }
      var n := tfs.TfsWrite(fd.value, msg);
      ghost var s2 := tfs.State();
      WriteIsStep(s1, s2, fd.value, msg, n);
      if !n.Done? || n.value < 0 {
        return if n.Done? then Done(-1) else n;
      }
      var closed := tfs.TfsClose(fd.value);
      CloseIsStep(s2, tfs.State(), fd.value, closed);
      if !closed.Done? || closed.value < 0 {
        return if closed.Done? then Done(-1) else closed;
      }
      var i := FindBoxByName(name);
      if i == |boxes| {
        return Done(-1);
      }
      boxes := boxes[i := boxes[i].(sizes := boxes[i].sizes + [|msg|])];
      return Done(0);
    }

    // register_subscriber_command as far as the replay. `frames` is what is written
    // to the subscriber's pipe, `junk` what malloc left in the message buffer; `id`
    // names the replay in the protocol.
    method RegisterSubscriber(name: CString, ghost id: nat)
      returns (r: Outcome<int>, frames: seq<seq<byte>>, ghost junk: Buffer)
      requires Valid() && id !in view.replays
      modifies this, tfs.Repr()
      ensures Ran(R.Exec(old(view), R.WholeReplay(id, name, junk, MessageCount(old(view), name))), r)
      ensures r.Done? ==> r.value == (if Answered(view, id, frames) then 0 else -1) && boxes == old(boxes)
    {
      hide R.Exec, R.WholeReplay, Matches, Distinct, Registry, FramesOf;
      var i := FindBoxByName(name);
      NameRegistered(boxes, view.boxes, name, i);
      if i == |boxes| {
        junk := Zeros(TEXT_SIZE);
        ReplayOfNothing(view, id, name, junk, 0);
        return Done(-1), [], junk;
      }
      r, frames, junk := GetOldMessages(i, id);
    }

    method GetOldMessages(i: nat, ghost id: nat)
      returns (r: Outcome<int>, frames: seq<seq<byte>>, ghost junk: Buffer)
      requires Valid() && i < |boxes| && id !in view.replays
      modifies this, tfs.Repr()
      ensures Ran(R.Exec(old(view), R.WholeReplay(id, old(boxes[i].name), junk, |old(boxes[i].sizes)|)), r)
      ensures r.Done? ==> r.value == (if Answered(view, id, frames) then 0 else -1) && boxes == old(boxes)
    {
      hide P.SubscribeStep, FromRestart, R.Exec, R.WholeReplay, R.Fetches, Matches, Distinct, Registry, FramesOf;
      var name := boxes[i].name;
      MatchesFacts(boxes, view.boxes, i);
      ghost var start, n := view, |boxes[i].sizes|;
      frames := [];
      var fd := OpenForReplay(name, id);
      if fd.Done? && fd.value >= 0 {
        r, frames, junk := SendOldMessages(i, id, fd.value);
        ReplaySteps(start, id, name, junk, n);
      } else {
        junk := Zeros(TEXT_SIZE);
        ReplaySteps(start, id, name, junk, n);
        if fd.Done? {
          RestartAfterEnd(view, id, junk, n);
        }
        r := if fd.Done? then Done(-1) else fd;
      }
    }

    // Once the box's file is open.
    method SendOldMessages(i: nat, ghost id: nat, fd: nat)
      returns (r: Outcome<int>, frames: seq<seq<byte>>, ghost junk: Buffer)
      requires Valid() && i < |boxes| && id in view.replays && view.replays[id] == P.Begun(boxes[i].name, fd)
      modifies this, tfs.Repr()
      ensures Ran(FromRestart(old(view), id, junk, |old(boxes[i].sizes)|), r)
      ensures r.Done? ==> r.value == (if Answered(view, id, frames) then 0 else -1) && boxes == old(boxes)
    {
      hide P.RestartStep, R.Exec, R.Fetches, Matches, Distinct, Registry, FramesOf;
      var rewound, message := RewindForReplay(id, boxes[i].name, fd);
      junk := message[..];
      if !rewound.Done? {
        return rewound, [], junk;
      }
      if rewound.value < 0 {
        FetchesAfterEnd(view, id, |boxes[i].sizes| + 1);
        return Done(-1), [], junk;
      }
      r, frames := SendAll(i, id, fd, message);
    }

    method OpenForReplay(name: CString, ghost id: nat) returns (fd: Outcome<int>)
      requires Valid() && name in view.boxes && id !in view.replays
      modifies this, tfs.Repr()
      ensures Ran(P.SubscribeStep(old(view), id, name), fd) && boxes == old(boxes)
      ensures fd.Done? ==> id in view.replays && view.boxes == old(view.boxes) &&
                           view.replays[id] == if fd.value < 0 then P.Failed else P.Begun(name, fd.value)
    {
      hide M.Step, M.TfsOpen;
      fd := tfs.TfsOpen(name, P.TFS_O_APPEND);
      OpenIsStep(view.fs, tfs.State(), name, P.TFS_O_APPEND, fd);
      if fd.Done? {
        view := P.SubscribeStep(view, id, name).value;
      }
    }

    // The rewind, and the malloc of the message buffer behind it.
    method RewindForReplay(ghost id: nat, name: CString, fd: nat) returns (r: Outcome<int>, message: array<byte>)
      requires Valid() && id in view.replays && view.replays[id] == P.Begun(name, fd)
      modifies this, tfs.Repr()
      ensures fresh(message) && message.Length == TEXT_SIZE
      ensures Ran(P.RestartStep(old(view), id, message[..]), r) && boxes == old(boxes)
      ensures r.Done? ==> id in view.replays && view.boxes == old(view.boxes) &&
                          view.replays[id] ==
                          if r.value < 0 then P.Failed else P.Reading(name, fd, message[..], [])
    {
      hide M.Step, M.TfsRewindOffset;
      r := tfs.TfsRewindOffset(fd);
      RewindIsStep(view.fs, tfs.State(), fd, r);
      message := new byte[TEXT_SIZE];
      if r.Done? {
        view := P.RestartStep(view, id, message[..]).value;
      }
    }

    // One message is read into the buffer and framed; a read that fails is noticed
    // only for the first.
    method SendMessage(ghost id: nat, fd: nat, size: nat, message: array<byte>, first: bool)
      returns (frame: Outcome<Option<seq<byte>>>)
      requires Valid() && message !in tfs.Repr() && message.Length == TEXT_SIZE
      requires id in view.replays && view.replays[id].Reading? && view.replays[id].fd == fd
      requires NextSize(view, view.replays[id]) == Some(size) && (first <==> view.replays[id].sent == [])
      requires message[..] == P.BufferFor(view.replays[id].junk, |view.replays[id].sent|)
      modifies this, tfs.Repr(), message
      ensures boxes == old(boxes)
      ensures P.FetchStep(old(view), id) == if frame.Done? then Done(view) else frame.PropagateFailure()
      ensures frame.Done? ==> Valid() && id in view.replays && view.boxes == old(view.boxes)
      ensures frame.Done? && frame.value.None? ==> first && view.replays[id] == P.Failed
      ensures frame.Done? && frame.value.Some? ==>
                OneMoreSent(old(view).replays[id], view.replays[id], frame.value.value)
    {
      hide M.Step, M.TfsRead, P.FetchStep, TextFrame, Matches;
      var bytes := tfs.TfsRead(fd, size);
      ReadIsStep(view.fs, tfs.State(), fd, size, bytes);
      if !bytes.Done? {
        FetchStops(view, id);
        return bytes.PropagateFailure();
      }
      FetchIs(view, id, tfs.State(), bytes.value);
      if bytes.value.None? && first {
        view := P.SetReplay(view.(fs := tfs.State()), id, P.Failed);
        return Done(None);
      }
      var stored := bytes.value.UnwrapOr([]);
      if |stored| > TEXT_SIZE {
        return Wild;
      }
      MemCpy(message, 0, stored);
      var framed := FrameBuffer(OP_SUBSCRIBER_MESSAGE, message);
      if !framed.Done? {
        return Wild;
      }
      view := P.SetReplay(view.(fs := tfs.State()), id, SentMore(view.replays[id], CStr(message[..])));
      return Done(Some(framed.value));
    }

    // The loop of get_old_messages.
    method SendAll(i: nat, ghost id: nat, fd: nat, message: array<byte>)
      returns (r: Outcome<int>, frames: seq<seq<byte>>)
      requires Valid() && message !in tfs.Repr() && message.Length == TEXT_SIZE
      requires i < |boxes| && id in view.replays && view.replays[id] == P.Reading(boxes[i].name, fd, message[..], [])
      modifies this, tfs.Repr(), message
      ensures Ran(R.Exec(old(view), R.Fetches(id, |old(boxes[i].sizes)| + 1)), r)
      ensures r.Done? ==> r.value == (if Answered(view, id, frames) then 0 else -1) && boxes == old(boxes)
    {
      hide P.FetchStep, R.Fetches, R.Exec, Distinct, InList, Sending, OneMoreSent, FramesOf, TextFrame;
      frames := [];
      ghost var name := boxes[i].name;
      var sizes := boxes[i].sizes;
      R.ExecFetches(view, id, |sizes| + 1);
      if sizes == [] {
        FetchNothing(view, id);
        return Wild, frames;
      }
      SendingStarts(view, id, name, fd);
      ghost var start := view;
      var first := SendMessage(id, fd, sizes[0], message, true);
      if !first.Done? {
        return first.PropagateFailure(), frames;
      }
      if first.value.None? {
        FetchesAfterEnd(view, id, |sizes|);
        return Done(-1), frames;
      }
      SendingMore(start, view, id, name, fd, frames, first.value.value);
      r, frames := SendRest(sizes, id, name, fd, message, frames + [first.value.value]);
    }

    // From the second message on, each is read into a cleared buffer.
    method SendRest(sizes: seq<nat>, ghost id: nat, ghost name: CString, fd: nat, message: array<byte>,
                    start: seq<seq<byte>>)
      returns (r: Outcome<int>, frames: seq<seq<byte>>)
      requires Valid() && message !in tfs.Repr() && message.Length == TEXT_SIZE
      requires name in view.boxes && view.boxes[name].sizes == sizes && 0 < |start| <= |sizes|
      requires Sending(view, id, name, fd, start)
      modifies this, tfs.Repr(), message
      ensures Ran(R.Exec(old(view), R.Fetches(id, |sizes| - |start| + 1)), r)
      ensures r.Done? ==> r.value == 0 && Answered(view, id, frames) && boxes == old(boxes)
    {
      hide P.FetchStep, R.Fetches, R.Exec, Matches, Sending, OneMoreSent, NextSize, FramesOf, TextFrame;
      frames := start;
      ghost var b := view;
      while |frames| < |sizes|
        invariant 0 < |frames| <= |sizes| && Valid() && boxes == old(boxes)
        invariant name in view.boxes && view.boxes[name].sizes == sizes && Sending(view, id, name, fd, frames)
        invariant R.Exec(b, R.Fetches(id, |sizes| - |start| + 1)) ==
                  R.Exec(view, R.Fetches(id, |sizes| - |frames| + 1))
      {
        ghost var before := view;
        SendingFacts(view, id, name, fd, frames, sizes);
        R.ExecFetches(view, id, |sizes| - |frames| + 1);
        MemZero(message, 0, TEXT_SIZE);
        var next := SendMessage(id, fd, sizes[|frames|], message, false);
        if !next.Done? {
          return next.PropagateFailure(), frames;
        }
        SendingMore(before, view, id, name, fd, frames, next.value.value);
        frames := frames + [next.value.value];
      }
      SendingFacts(view, id, name, fd, frames, sizes);
      SendingEnds(view, id, name, fd, frames);
      R.ExecFetches(view, id, 1);
      FetchEnd(view, id);
      view := P.SetReplay(view, id, P.Finished(name, fd, view.replays[id].junk, view.replays[id].sent));
      FetchesAfterEnd(view, id, 0);
      return Done(0), frames;
    }
  }
}
