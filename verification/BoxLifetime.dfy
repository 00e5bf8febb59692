// That the broker wears out for good: neither creations nor replays ever give
// their handles back.
module BoxLifetime {
  import opened Prelude
  import opened Bytes
  import opened M = FsModel
  import opened FsAbstract
  import opened FsInvariant
  import opened Framing
  import opened BoxProtocol
  import opened BoxFrames
  import opened BoxSafety
  import opened BoxRuns

  // No call changes the sizes of the tables.
  lemma StepParams(s: Fs, op: Op)
    requires Shaped(s)
    ensures Step(s, op).Done? ==> Step(s, op).value.0.params == s.params
  {
    hide FindInDir, SlotToClear, EmptySlot, FirstFree, Padded;
  }

  lemma BStepParams(b: BrokerState, act: Action)
    requires Shaped(b.fs)
    ensures BStep(b, act).Done? ==> BStep(b, act).value.fs.params == b.fs.params
  {
    hide Step, ReceivedText, ReplayedText, Written;
    match act
    case Create(path) => StepParams(b.fs, Open(path, TFS_O_CREAT));
    case Publish(path, _) => StepParams(b.fs, Open(path, TFS_O_APPEND));
    case Store(path) =>
      if path in b.boxes && b.boxes[path].session.Opened? {
        StepParams(b.fs, Write(b.boxes[path].session.fd, b.boxes[path].session.msg));
      }
    case Shut(path) =>
      if path in b.boxes && b.boxes[path].session.Wrote? {
        StepParams(b.fs, Close(b.boxes[path].session.fd));
      }
    case Subscribe(_, path) => StepParams(b.fs, Open(path, TFS_O_APPEND));
    case Restart(id, _) =>
      if id in b.replays && b.replays[id].Begun? {
        StepParams(b.fs, Rewind(b.replays[id].fd));
      }
    case Fetch(id) => FetchParams(b, id);
    case _ =>
  }

  lemma FetchParams(b: BrokerState, id: nat)
    requires Shaped(b.fs)
    ensures FetchStep(b, id).Done? ==> FetchStep(b, id).value.fs.params == b.fs.params
  {
    hide Step, ReplayedText;
    if id in b.replays && b.replays[id].Reading? {
      var Reading(path, fd, junk, sent) := b.replays[id];
      var sizes := if path in b.boxes then b.boxes[path].sizes else [];
      if |sent| < |sizes| {
        StepParams(b.fs, Read(fd, sizes[|sent|]));
      }
    }
  }

  // In a good state a replay that has its handle does not fail any more.
  lemma StaysReplaying(b: BrokerState, act: Action, id: nat)
    requires BInv(b) && Allowed(b, act) && id in Replaying(b)
    ensures Shaped(b.fs) && BStep(b, act).Done? && id in Replaying(BStep(b, act).value)
  {
    hide Tidy, Inv, Represents, NoneStranded, Abs;
    hide Good, Step, ReceivedText, ReplayedText, Allowed, RestartStep, FetchStep;
    AbsFacts(b.fs);
    StepFine(b, act);
    if act == Fetch(id) {
      FetchStays(b, id);
    } else if act.Restart? && act.id == id {
      RestartStays(b, id, act.junk);
    } else if act.Restart? {
      OtherReplays(b, act, id);
    } else if act.Fetch? {
      OtherReplays(b, act, id);
    }
  }

  lemma OtherReplays(b: BrokerState, act: Action, id: nat)
    requires Shaped(b.fs) && BStep(b, act).Done? && (act.Fetch? || act.Restart?) && act.id != id && id in b.replays
    ensures id in BStep(b, act).value.replays && BStep(b, act).value.replays[id] == b.replays[id]
  {
    hide Step, ReplayedText;
  }

  lemma FetchStays(b: BrokerState, id: nat)
    requires BInv(b) && Allowed(b, Fetch(id)) && id in Replaying(b)
    ensures Shaped(b.fs) && FetchStep(b, id).Done? && id in Replaying(FetchStep(b, id).value)
  {
    hide Tidy, Good, Step, ReplayedText;
    FetchFine(b, id);
    if b.replays[id].Reading? {
      hide FetchStep;
      FetchOnce(b, id);
    }
  }

  lemma RestartStays(b: BrokerState, id: nat, junk: Buffer)
    requires BInv(b) && Allowed(b, Restart(id, junk)) && id in Replaying(b)
    ensures Shaped(b.fs) && RestartStep(b, id, junk).Done? && id in Replaying(RestartStep(b, id, junk).value)
  {
    hide Tidy, Inv, Represents, NoneStranded, Abs, Good, Step, ReplayOk;
    RestartFine(b, id, junk);
    if b.replays[id].Begun? {
      ReplayFacts(Abs(b.fs), b, id);
      BegunFacts(Abs(b.fs), b, id, junk);
      RestartOnce(b, id, junk);
    }
  }

  // Handles are never given back.
  lemma {:induction false} HandlesStay(b: BrokerState, acts: seq<Action>)
    requires BInv(b) && AllowedRun(b, acts)
    ensures Shaped(b.fs) && Fine(Exec(b, acts))
    ensures var c := Exec(b, acts).value;
            b.boxes.Keys <= c.boxes.Keys && Replaying(b) <= Replaying(c) && c.fs.params == b.fs.params
    decreases |acts|
  {
    hide BInv, BStep, Allowed, Replaying, Written, Sent;
    if acts == [] {
      ShapedFs(b);
    } else {
      StepFine(b, acts[0]);
      StepLater(b, acts[0]);
      BStepParams(b, acts[0]);
      forall id | id in Replaying(b) ensures id in Replaying(BStep(b, acts[0]).value) {
        StaysReplaying(b, acts[0], id);
      }
      HandlesStay(BStep(b, acts[0]).value, acts[1..]);
    }
  }

  // Once boxes and replays have used up the open-file table, that remains so in
  // every allowed run, with the same boxes and the same replays; so every later
  // creation, message and replay fails as well.
  lemma WornOutForGood(b: BrokerState, acts: seq<Action>)
    requires BInv(b) && AllowedRun(b, acts) && |b.boxes| + |Replaying(b)| == b.fs.params.maxOpen
    ensures Shaped(b.fs) && Fine(Exec(b, acts))
    ensures var c := Exec(b, acts).value;
            && c.boxes.Keys == b.boxes.Keys && Replaying(c) == Replaying(b)
            && |c.boxes| + |Replaying(c)| == c.fs.params.maxOpen
  {
    hide BInv, Exec, AllowedRun, Replaying;
    HandlesStay(b, acts);
    var c := Exec(b, acts).value;
    HandlesBound(c);
    SubsetCard(b.boxes.Keys, c.boxes.Keys);
    SubsetCard(Replaying(b), Replaying(c));
    assert |b.boxes.Keys| == |b.boxes| && |c.boxes.Keys| == |c.boxes|;
  }
}
