// From the lines typed at a publisher to the lines shown by a subscriber, across
// the frames, the file system, the list of sizes and every interleaving.
module BoxDelivery {
  import opened Prelude
  import opened Bytes
  import opened M = FsModel
  import opened FsAbstract
  import opened FsInvariant
  import opened BoxLog
  import opened Framing
  import opened BoxProtocol
  import opened BoxFrames
  import opened BoxSafety
  import opened BoxRuns
  import opened BoxReplays
  import opened BoxHistory
  import opened BoxSession
  import Pipe = SubscriberPipe

  // ---- a replay behind a run ----

  // The round trip. After any allowed interleaving from an empty broker, the box
  // holds what its publishers sent, all of it unless the last session has ended in
  // an error, and then all but at most the last message. A replay of the box that
  // nothing interrupts, begun while no message is under way and a handle is free,
  // delivers exactly that, empty messages included, if and only if it has at least
  // one byte and the replay's buffer happens to hold a NUL right behind the first
  // message.
  lemma StoredIsDelivered(b: BrokerState, acts: seq<Action>, path: CString, id: nat, junk: Buffer)
    requires BInv(b) && b.boxes == map[] && AllowedRun(b, acts)
    ensures Shaped(b.fs) && Fine(Exec(b, acts))
    ensures var c, taken, stored := Exec(b, acts).value, TakenBy(b, acts, path), StoredBy(b, acts, path);
            && KeptAll(taken, stored + OnTheWay(c, path), IsDead(c, path))
            && (At(c, path, Idle) || At(c, path, Ready) ==> stored == taken)
            && (CanReplay(c, id, path) ==> DeliveredExactly(c, id, path, junk, stored))
  {
    hide BInv, BStep, Allowed, CanReplay, DeliveredExactly, Exec, StoredBy, TakenBy, Written, FineRun;
    RunWrites(b, acts, path);
    NothingElseIsLost(b, acts, path);
    var c, taken, stored := Exec(b, acts).value, TakenBy(b, acts, path), StoredBy(b, acts, path);
    assert OnTheWay(b, path) + taken == taken;
    assert WrittenTo(b, path) + stored == stored;
    if At(c, path, Idle) || At(c, path, Ready) {
      assert stored + [] == stored && OnTheWay(c, path) == [];
    }
    if CanReplay(c, id, path) {
      SettledReplay(c, id, path, junk);
    }
  }

  // A new replay of the box finds a free handle and no message under way.
  ghost predicate CanReplay(c: BrokerState, id: nat, path: CString) {
    && BInv(c) && path in c.boxes && id !in c.replays && HasFreeHandle(c)
    && Written(c.boxes[path]) == c.boxes[path].log
  }

  ghost predicate DeliveredExactly(c: BrokerState, id: nat, path: CString, junk: Buffer, stored: seq<Message>) {
    && Shaped(c.fs)
    && (Delivered(Exec(c, WholeReplay(id, path, junk, |stored|)), id, stored) <==>
          stored != [] && Flatten(stored) != [] && NulBehind(junk, stored[0]))
  }

  lemma SettledReplay(c: BrokerState, id: nat, path: CString, junk: Buffer)
    requires CanReplay(c, id, path)
    ensures DeliveredExactly(c, id, path, junk, WrittenTo(c, path))
  {
    hide Tidy, Good, BStep, Abs, Delivered, WholeReplay, Exec, Written, HasFreeHandle;
    AbsFacts(c.fs);
    ReplayExact(c, id, path, junk);
  }

  // ---- typed lines ----

  ghost predicate IsTyped(body: Buffer) {
    exists line: CString :: IsText(line) && body == BodyOf(line)
  }

  // Every message of the run was a line typed into a publisher.
  ghost predicate TypedRun(acts: seq<Action>) {
    forall i :: 0 <= i < |acts| && acts[i].Publish? ==> IsTyped(acts[i].body)
  }

  // The line that a publisher's message was typed as.
  ghost function TypedLine(body: Buffer): (line: CString)
    requires IsTyped(body)
    ensures IsText(line) && body == BodyOf(line)
  {
    var line: CString :| IsText(line) && body == BodyOf(line);
    line
  }

  lemma TypedRest(acts: seq<Action>)
    requires TypedRun(acts) && acts != []
    ensures TypedRun(acts[1..])
  {
    assert forall i :: 0 <= i < |acts[1..]| ==> acts[1..][i] == acts[i + 1];
  }

  // The lines typed at the publishers of a box, as they took their turn.
  ghost function LinesTyped(b: BrokerState, acts: seq<Action>, path: CString): seq<Message>
    requires Shaped(b.fs) && TypedRun(acts)
    decreases |acts|
  {
    if acts == [] || !BStep(b, acts[0]).Done? then []
    else
      TypedRest(acts);
      (if acts[0].Publish? && acts[0].path == path && At(b, path, Ready) then [TypedLine(acts[0].body)] else [])
      + LinesTyped(BStep(b, acts[0]).value, acts[1..], path)
  }

  // The broker takes exactly these lines.
  lemma {:induction false} TypedIsTaken(b: BrokerState, acts: seq<Action>, path: CString)
    requires Shaped(b.fs) && TypedRun(acts)
    ensures TakenBy(b, acts, path) == LinesTyped(b, acts, path)
    decreases |acts|
  {
    hide BStep, ReceivedText;
    if acts == [] {
    } else if BStep(b, acts[0]).Done? {
      TypedRest(acts);
      if acts[0].Publish? {
        StoredText(TypedLine(acts[0].body));
      }
      TypedIsTaken(BStep(b, acts[0]).value, acts[1..], path);
    }
  }

  // ---- printed lines ----

  // What a subscriber prints for the text, whatever was in its own buffer.
  ghost predicate Prints(text: seq<byte>, line: Message) {
    IsText(text) &&
    forall answer: seq<byte> :: |answer| == ANSWER_SIZE ==>
      PrintedText(answer, TextFrame(OP_SUBSCRIBER_MESSAGE, text)) == Done(Some(line))
  }

  // The replay has sent exactly the log as it was at its last fetch, and everything
  // that was recorded at any time before it finished.
  ghost predicate MissesNothing(b: BrokerState, acts: seq<Action>, id: nat, replay: Replay)
    requires Shaped(b.fs) && replay.Finished?
  {
    && (exists n :: EndsAt(b, acts, n, id, replay))
    && forall m: nat :: m <= |acts| ==> NotMissed(b, acts, m, id, replay)
  }

  ghost predicate NotMissed(b: BrokerState, acts: seq<Action>, m: nat, id: nat, replay: Replay)
    requires Shaped(b.fs) && replay.Finished? && m <= |acts|
  {
    var r := Exec(b, acts[..m]);
    r.Done? && !IsFinished(r.value, id) && replay.path in r.value.boxes ==>
      |r.value.boxes[replay.path].log| <= |replay.sent|
  }

  // From keyboard to screen: after an allowed run from an empty broker, in which
  // publishers, replays and creations interleave freely,
  //  - the lines typed at a box's publishers are stored in order, none of them lost
  //    but at most the last one of a session that ended in an error;
  //  - every replay has sent a text for each of the first lines, of which the k-th
  //    is printed as the k-th typed line, always for k > 0, and for the first line
  //    if and only if the replay's buffer held a NUL right behind it;
  //  - a replay that has finished misses nothing.
  lemma LinesArePrinted(b: BrokerState, acts: seq<Action>, id: nat)
    requires BInv(b) && b.boxes == map[] && AllowedRun(b, acts) && TypedRun(acts)
    ensures Shaped(b.fs) && Fine(Exec(b, acts))
    ensures var c := Exec(b, acts).value;
            id in c.replays && HasSent(c.replays[id]) ==>
              var path, junk, sent := c.replays[id].path, c.replays[id].junk, c.replays[id].sent;
              var lines, stored := LinesTyped(b, acts, path), StoredBy(b, acts, path);
              && KeptAll(lines, stored + OnTheWay(c, path), IsDead(c, path)) && |sent| <= |stored| <= |lines|
              && (forall k :: 0 <= k < |sent| ==> (Prints(sent[k], lines[k]) <==> k > 0 || NulBehind(junk, lines[0])))
              && (c.replays[id].Finished? ==> MissesNothing(b, acts, id, c.replays[id]))
  {
    hide BInv, BStep, Allowed, TypedRun, Exec, StoredBy, TakenBy, LinesTyped, AllowedRun;
    hide Prints, NulBehind, MissesNothing, Written;
    RunWrites(b, acts, []);
    var c := Exec(b, acts).value;
    if id in c.replays && HasSent(c.replays[id]) {
      var path, sent := c.replays[id].path, c.replays[id].sent;
      var lines, stored := StoredLines(b, acts, path);
      SentIsStored(c, id);
      forall k | 0 <= k < |sent|
        ensures Prints(sent[k], lines[k]) <==> k > 0 || NulBehind(c.replays[id].junk, lines[0])
      {
        TextIsPrinted(c.replays[id].junk, stored, sent, k);
      }
      if c.replays[id].Finished? {
        NothingMissed(b, acts, id);
      }
    }
  }

  lemma StoredLines(b: BrokerState, acts: seq<Action>, path: CString)
    returns (lines: seq<Message>, stored: seq<Message>)
    requires BInv(b) && b.boxes == map[] && AllowedRun(b, acts) && TypedRun(acts)
    ensures Shaped(b.fs) && Fine(Exec(b, acts))
    ensures lines == LinesTyped(b, acts, path) && stored == StoredBy(b, acts, path) <= lines
    ensures WrittenTo(Exec(b, acts).value, path) == stored
    ensures KeptAll(lines, stored + OnTheWay(Exec(b, acts).value, path), IsDead(Exec(b, acts).value, path))
  {
    hide BInv, BStep, Allowed, TypedRun, Exec, StoredBy, TakenBy, LinesTyped, AllowedRun, IsDead, Written;
    RunWrites(b, acts, path);
    NothingElseIsLost(b, acts, path);
    TypedIsTaken(b, acts, path);
    lines, stored := LinesTyped(b, acts, path), StoredBy(b, acts, path);
    assert OnTheWay(b, path) + lines == lines;
    assert WrittenTo(b, path) + stored == stored;
  }

  lemma NothingMissed(b: BrokerState, acts: seq<Action>, id: nat)
    requires BInv(b) && b.boxes == map[] && AllowedRun(b, acts) && Shaped(b.fs)
    requires Exec(b, acts).Done? && IsFinished(Exec(b, acts).value, id)
    ensures MissesNothing(b, acts, id, Exec(b, acts).value.replays[id])
  {
    hide BInv, BStep, Allowed, Exec, AllowedRun, EndsAt;
    NoneFinished(b, id);
    var n := ReplayFinishes(b, acts, id);
    var replay := Exec(b, acts).value.replays[id];
    forall m: nat | m <= |acts| ensures NotMissed(b, acts, m, id, replay) {
      var r := Exec(b, acts[..m]);
      if r.Done? && !IsFinished(r.value, id) && replay.path in r.value.boxes {
        SendsWhatWasThere(b, acts, m, id);
      }
    }
  }

  // Without a box there is no replay that works.
  lemma NoneFinished(b: BrokerState, id: nat)
    requires BInv(b) && b.boxes == map[]
    ensures !IsFinished(b, id)
  {
    hide Tidy, Inv, Represents, NoneStranded, Abs, Good;
    if id in b.replays {
      ReplayFacts(Abs(b.fs), b, id);
    }
  }

  // The texts that a replay has sent are those of the first stored messages.
  lemma SentIsStored(c: BrokerState, id: nat)
    requires BInv(c) && id in c.replays && HasSent(c.replays[id])
    ensures c.replays[id].path in c.boxes
    ensures var stored := WrittenTo(c, c.replays[id].path);
            SentFor(c.replays[id].junk, stored, c.replays[id].sent) && AllTexts(stored)
  {
    hide Tidy, Inv, Represents, NoneStranded, Abs;
    hide Good, BoxOk, ReplayOk, ReplayedText, IsText;
    var path := c.replays[id].path;
    ReplayFacts(Abs(c.fs), c, id);
    SentSoFar(Abs(c.fs), c, id);
    BoxFacts(Abs(c.fs), c, path);
    BoxContents(Abs(c.fs), c.owners, path, c.boxes[path]);
    HandTexts(Abs(c.fs), c.owners, path, c.boxes[path]);
  }

  lemma HandTexts(a: AFs, owners: map<nat, Owner>, path: CString, box: Box)
    requires BoxOk(a, owners, path, box)
    ensures AllTexts(Written(box))
  {
    hide Flatten, Holds, SessionOk, IsText;
  }

  lemma TextIsPrinted(junk: Buffer, stored: seq<Message>, sent: seq<seq<byte>>, k: nat)
    requires SentFor(junk, stored, sent) && AllTexts(stored) && k < |sent|
    ensures IsText(sent[k]) && (sent[k] == stored[k] <==> k > 0 || NulBehind(junk, stored[0]))
    ensures Prints(sent[k], stored[k]) <==> k > 0 || NulBehind(junk, stored[0])
  {
    hide PrintedText, TextFrame;
    if k == 0 {
      RunIsText(junk, stored[0], sent[0]);
    }
    forall answer: seq<byte> | |answer| == ANSWER_SIZE
      ensures PrintedText(answer, TextFrame(OP_SUBSCRIBER_MESSAGE, sent[k])) == Done(Some(sent[k]))
    {
      Printed(answer, sent[k], TextFrame(OP_SUBSCRIBER_MESSAGE, sent[k]));
    }
    assert Prints(sent[k], stored[k]) ==> sent[k] == stored[k] by {
      assert PrintedText(Zeros(ANSWER_SIZE), TextFrame(OP_SUBSCRIBER_MESSAGE, sent[k])) == Done(Some(sent[k]));
    }
  }

  lemma RunIsText(junk: Buffer, stored: seq<byte>, text: seq<byte>)
    requires IsText(stored) && RunsOn(junk, stored, text)
    ensures IsText(text) && (text == stored <==> NulBehind(junk, stored))
  {
    assert forall j :: 0 <= j < |text| ==> text[j] == if j < |stored| then stored[j] else junk[j];
  }

  // ... and through the subscriber's pipe, read 1029 bytes at a time: once it has
  // read everything a replay sent, its screen shows exactly the first lines typed
  // if and only if no read found two frames and, unless nothing was sent, the
  // replay's buffer held a NUL right behind the first line.
  lemma ScreenExact(b: BrokerState, acts: seq<Action>, id: nat, events: seq<Pipe.Event>)
    requires BInv(b) && b.boxes == map[] && AllowedRun(b, acts) && TypedRun(acts) && Shaped(b.fs)
    requires Exec(b, acts).Done? && id in Exec(b, acts).value.replays && HasSent(Exec(b, acts).value.replays[id])
    requires Pipe.AllSound(events) && Pipe.TextsSent(events) == Exec(b, acts).value.replays[id].sent
    requires Pipe.Drained(Pipe.Run(Pipe.NEW_CLIENT, events))
    ensures var replay := Exec(b, acts).value.replays[id];
            var lines := LinesTyped(b, acts, replay.path);
            && |replay.sent| <= |lines|
            && (Pipe.HasPrinted(Pipe.Run(Pipe.NEW_CLIENT, events), lines[..|replay.sent|]) <==>
                  Pipe.OneAtATime(Pipe.NEW_CLIENT, events) && (replay.sent == [] || NulBehind(replay.junk, lines[0])))
  {
    hide BInv, BStep, Allowed, TypedRun, Exec, StoredBy, TakenBy, LinesTyped, AllowedRun, Written, KeptAll;
    hide NulBehind, Pipe.Run, Pipe.OneAtATime, Pipe.AllSound, Pipe.TextsSent, Pipe.Drained;
    var c := Exec(b, acts).value;
    var replay := c.replays[id];
    var lines, stored := StoredLines(b, acts, replay.path);
    SentIsStored(c, id);
    Pipe.SubscriberExact(events);
    Pipe.FirstPrinted(events);
    FrontExact(replay.junk, stored, replay.sent);
    assert lines[..|replay.sent|] == stored[..|replay.sent|];
  }

  // The texts sent are the first lines exactly if the first one is.
  lemma FrontExact(junk: Buffer, stored: seq<Message>, sent: seq<seq<byte>>)
    requires SentFor(junk, stored, sent) && AllTexts(stored)
    ensures sent == stored[..|sent|] <==> sent == [] || NulBehind(junk, stored[0])
    ensures sent != [] ==> (sent[0] == stored[0] <==> NulBehind(junk, stored[0]))
  {
    hide ReplayedText, Prints, NulBehind;
    forall k | 0 <= k < |sent| ensures sent[k] == stored[k] <==> k > 0 || NulBehind(junk, stored[0]) {
      TextIsPrinted(junk, stored, sent, k);
    }
  }
}
