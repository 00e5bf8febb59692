// What subscribers get, told from what publishers did.
module BoxHistory {
  import opened Prelude
  import opened Bytes
  import opened M = FsModel
  import opened FsAbstract
  import opened FsInvariant
  import opened BoxLog
  import opened Framing
  import opened BoxProtocol
  import opened BoxFrames
  import opened BoxSafety
  import opened BoxRuns

  function WrittenTo(b: BrokerState, path: CString): seq<Message> {
    if path in b.boxes then Written(b.boxes[path]) else []
  }

  // The message that this step puts into the box's file.
  function StoredNow(b: BrokerState, act: Action, c: BrokerState, path: CString): seq<Message> {
    if act == Store(path) && path in b.boxes && b.boxes[path].session.Opened? &&
       path in c.boxes && c.boxes[path].session.Wrote?
    then [b.boxes[path].session.msg]
    else []
  }

  // The messages whose tfs_write succeeded during the run, in that order.
  function StoredBy(b: BrokerState, acts: seq<Action>, path: CString): seq<Message>
    requires Shaped(b.fs)
    decreases |acts|
  {
    if acts == [] || !BStep(b, acts[0]).Done? then []
    else
      var c := BStep(b, acts[0]).value;
      StoredNow(b, acts[0], c, path) + StoredBy(c, acts[1..], path)
  }

  lemma StepWrites(b: BrokerState, act: Action, path: CString)
    requires BInv(b) && Allowed(b, act)
    ensures Shaped(b.fs) && BStep(b, act).Done?
    ensures var c := BStep(b, act).value;
            WrittenTo(c, path) == WrittenTo(b, path) + StoredNow(b, act, c, path)
  {
    hide Tidy, Inv, Represents, NoneStranded, Abs;
    hide Good, Step, Allowed, ShutStep, StoreStep, PublishStep, FetchStep, RestartStep;
    StepFine(b, act);
    match act
    case Shut(p) => ShutWrites(b, p, path);
    case Store(p) => StoreWrites(b, p, path);
    case Publish(p, body) => PublishWrites(b, p, body, path);
    case Fetch(id) => FetchWrites(b, id);
    case Restart(id, junk) => RestartWrites(b, id, junk);
    case _ =>
  }

  lemma PublishWrites(b: BrokerState, p: CString, body: Buffer, path: CString)
    requires Shaped(b.fs) && PublishStep(b, p, body).Done?
    ensures WrittenTo(PublishStep(b, p, body).value, path) == WrittenTo(b, path)
  {
    hide Step, ReceivedText;
  }

  lemma FetchWrites(b: BrokerState, id: nat)
    requires Shaped(b.fs)
    ensures FetchStep(b, id).Done? ==> FetchStep(b, id).value.boxes == b.boxes
  {
    hide Step, ReplayedText;
  }

  lemma RestartWrites(b: BrokerState, id: nat, junk: Buffer)
    requires Shaped(b.fs)
    ensures RestartStep(b, id, junk).Done? ==> RestartStep(b, id, junk).value.boxes == b.boxes
  {
    hide Step;
  }

  lemma StoreWrites(b: BrokerState, p: CString, path: CString)
    requires Shaped(b.fs) && StoreStep(b, p).Done?
    ensures var c := StoreStep(b, p).value;
            WrittenTo(c, path) == WrittenTo(b, path) + StoredNow(b, Store(p), c, path)
  {
    hide Step;
  }

  lemma ShutWrites(b: BrokerState, p: CString, path: CString)
    requires BInv(b)
    ensures Shaped(b.fs) && ShutStep(b, p).Done? && WrittenTo(ShutStep(b, p).value, path) == WrittenTo(b, path)
  {
    hide Tidy, Inv, Represents, NoneStranded, Abs, Good, Step;
    AbsFacts(b.fs);
    if p in b.boxes {
      ShutLater(b, p);
    }
  }

  // In every allowed run, a box holds exactly the messages that were stored, in
  // order, none lost, doubled or mixed with another box's.
  lemma {:induction false} RunWrites(b: BrokerState, acts: seq<Action>, path: CString)
    requires BInv(b) && AllowedRun(b, acts)
    ensures Shaped(b.fs) && Fine(Exec(b, acts))
    ensures WrittenTo(Exec(b, acts).value, path) == WrittenTo(b, path) + StoredBy(b, acts, path)
    decreases |acts|
  {
    hide Tidy, Good, BStep, Allowed, WrittenTo, StoredNow;
    if acts == [] {
      AbsFacts(b.fs);
    } else {
      StepFine(b, acts[0]);
      StepWrites(b, acts[0], path);
      RunWrites(BStep(b, acts[0]).value, acts[1..], path);
    }
  }

  // ---- what publishers sent and what was stored ----

  predicate IsDead(b: BrokerState, path: CString) {
    At(b, path, Dead)
  }

  // The text that this step takes from the box's publisher, who stands between two
  // messages.
  function TakenNow(b: BrokerState, act: Action, path: CString): seq<Message> {
    if act.Publish? && act.path == path && At(b, path, Ready) && ReceivedText(act.body).Done?
    then [ReceivedText(act.body).value]
    else []
  }

  // Everything that publishers of the box sent during the run, in that order.
  function TakenBy(b: BrokerState, acts: seq<Action>, path: CString): seq<Message>
    requires Shaped(b.fs)
    decreases |acts|
  {
    if acts == [] || !BStep(b, acts[0]).Done? then []
    else TakenNow(b, acts[0], path) + TakenBy(BStep(b, acts[0]).value, acts[1..], path)
  }

  // The message that is on its way to the box's file.
  function OnTheWay(b: BrokerState, path: CString): (hand: seq<Message>)
    ensures |hand| <= 1
  {
    if path in b.boxes && b.boxes[path].session.Opened? then [b.boxes[path].session.msg] else []
  }

  // `kept` is all of `taken`, or all but the last one if the publisher's session
  // has ended in an error.
  ghost predicate KeptAll(taken: seq<Message>, kept: seq<Message>, dead: bool) {
    kept <= taken && |taken| <= |kept| + if dead then 1 else 0
  }

  // From b to c, a message that was on its way or is taken now is stored now, is on
  // its way now, or is lost with the session.
  ghost predicate Accounted(b: BrokerState, act: Action, c: BrokerState, path: CString) {
    || OnTheWay(b, path) + TakenNow(b, act, path) == StoredNow(b, act, c, path) + OnTheWay(c, path)
    || (&& |OnTheWay(b, path) + TakenNow(b, act, path)| == 1 && IsDead(c, path)
        && StoredNow(b, act, c, path) == [] && OnTheWay(c, path) == [])
  }

  // One step loses a message only by ending the session.
  lemma StepAccounts(b: BrokerState, act: Action, path: CString)
    requires Shaped(b.fs) && BStep(b, act).Done?
    ensures Accounted(b, act, BStep(b, act).value, path)
  {
    hide Step, CreateBox, PublishStep, StoreStep, ShutStep, RecordStep, FetchStep, RestartStep;
    match act
    case Create(p) => CreateAccounts(b, p);
    case Publish(p, body) => PublishAccounts(b, p, body, path);
    case Store(p) => StoreAccounts(b, p, path);
    case Shut(p) => ShutAccounts(b, p);
    case Fetch(id) => FetchWrites(b, id);
    case Restart(id, junk) => RestartWrites(b, id, junk);
    case Record(p) => RecordAccounts(b, p);
    case _ =>
  }

  lemma CreateAccounts(b: BrokerState, p: CString)
    requires Shaped(b.fs) && CreateBox(b, p).Done?
    ensures forall path :: OnTheWay(CreateBox(b, p).value, path) == OnTheWay(b, path)
  {
    hide Step;
  }

  lemma PublishAccounts(b: BrokerState, p: CString, body: Buffer, path: CString)
    requires Shaped(b.fs) && PublishStep(b, p, body).Done?
    ensures Accounted(b, Publish(p, body), PublishStep(b, p, body).value, path)
  {
    hide Step, ReceivedText;
  }

  lemma StoreAccounts(b: BrokerState, p: CString, path: CString)
    requires Shaped(b.fs) && StoreStep(b, p).Done?
    ensures Accounted(b, Store(p), StoreStep(b, p).value, path)
  {
    hide Step;
  }

  lemma ShutAccounts(b: BrokerState, p: CString)
    requires Shaped(b.fs) && ShutStep(b, p).Done?
    ensures forall path :: OnTheWay(ShutStep(b, p).value, path) == OnTheWay(b, path)
  {
    hide Step;
  }

  lemma RecordAccounts(b: BrokerState, p: CString)
    ensures forall path :: OnTheWay(RecordStep(b, p), path) == OnTheWay(b, path)
  {
  }

  // A session that has ended in an error stays that way, and nothing is taken from
  // or stored for its publisher any more.
  lemma DeadStep(b: BrokerState, act: Action, path: CString)
    requires Shaped(b.fs) && BStep(b, act).Done? && IsDead(b, path)
    ensures var c := BStep(b, act).value;
            && IsDead(c, path) && TakenNow(b, act, path) == [] && StoredNow(b, act, c, path) == []
            && OnTheWay(b, path) == [] && c.boxes[path].log == b.boxes[path].log
  {
    hide Step, ReceivedText;
    match act
    case Fetch(id) => FetchWrites(b, id);
    case Restart(id, junk) => RestartWrites(b, id, junk);
    case _ =>
  }

  lemma {:induction false} DeadForGood(b: BrokerState, acts: seq<Action>, path: CString)
    requires Shaped(b.fs) && IsDead(b, path) && Exec(b, acts).Done?
    ensures var c := Exec(b, acts).value;
            && IsDead(c, path) && c.boxes[path].log == b.boxes[path].log
            && TakenBy(b, acts, path) == [] && StoredBy(b, acts, path) == []
    decreases |acts|
  {
    hide BStep, TakenNow, StoredNow;
    if acts == [] {
    } else {
      DeadStep(b, acts[0], path);
      DeadForGood(BStep(b, acts[0]).value, acts[1..], path);
    }
  }

  // Accounting: over every run, what publishers of a box sent is what was stored,
  // in that order, then what is on its way, then at most one message that was lost;
  // and one is lost only when the session has ended in an error.
  lemma {:induction false} NothingElseIsLost(b: BrokerState, acts: seq<Action>, path: CString)
    requires Shaped(b.fs) && Exec(b, acts).Done?
    ensures var c := Exec(b, acts).value;
            KeptAll(OnTheWay(b, path) + TakenBy(b, acts, path), StoredBy(b, acts, path) + OnTheWay(c, path),
                    IsDead(c, path))
    decreases |acts|
  {
    hide BStep, TakenNow, StoredNow, OnTheWay;
    if acts == [] {
      assert OnTheWay(b, path) + [] == [] + OnTheWay(b, path);
    } else {
      var b1 := BStep(b, acts[0]).value;
      StepAccounts(b, acts[0], path);
      if IsDead(b1, path) {
        DeadForGood(b1, acts[1..], path);
        NoneOnTheWay(b1, path);
        NoneOnTheWay(Exec(b, acts).value, path);
      } else {
        NothingElseIsLost(b1, acts[1..], path);
        KeptChain(OnTheWay(b, path), TakenNow(b, acts[0], path), StoredNow(b, acts[0], b1, path), OnTheWay(b1, path),
                  TakenBy(b1, acts[1..], path), StoredBy(b1, acts[1..], path) + OnTheWay(Exec(b, acts).value, path),
                  IsDead(Exec(b, acts).value, path));
        assert StoredNow(b, acts[0], b1, path) + StoredBy(b1, acts[1..], path) + OnTheWay(Exec(b, acts).value, path) ==
               StoredNow(b, acts[0], b1, path) + (StoredBy(b1, acts[1..], path) + OnTheWay(Exec(b, acts).value, path));
      }
    }
  }

  lemma NoneOnTheWay(b: BrokerState, path: CString)
    requires IsDead(b, path)
    ensures OnTheWay(b, path) == []
  {
  }

  lemma KeptChain(before: seq<Message>, taken: seq<Message>, stored: seq<Message>, after: seq<Message>,
                  more: seq<Message>, kept: seq<Message>, dead: bool)
    requires before + taken == stored + after && KeptAll(after + more, kept, dead)
    ensures KeptAll(before + (taken + more), stored + kept, dead)
  {
    assert before + (taken + more) == (before + taken) + more;
    assert (stored + after) + more == stored + (after + more);
  }
}
