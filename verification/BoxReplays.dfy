// A replay while everything else goes on: publishers storing and recording, other
// replays, new boxes. write_to_box takes no mutex while it stores a message, so
// the log grows under a replay.
module BoxReplays {
  import opened Prelude
  import opened Bytes
  import opened M = FsModel
  import opened FsAbstract
  import opened FsInvariant
  import opened BoxLog
  import opened Framing
  import opened BoxProtocol
  import opened BoxFrames
  import opened BoxSafety
  import opened BoxRuns

  predicate IsFinished(b: BrokerState, id: nat) {
    id in b.replays && b.replays[id].Finished?
  }

  predicate IsReading(b: BrokerState, id: nat) {
    id in b.replays && b.replays[id].Reading?
  }

  // ---- one step ----

  // Only its own fetches move a replay that is reading, and nothing moves one that
  // has finished.
  lemma OnlyFetchesMove(b: BrokerState, act: Action, id: nat)
    requires Shaped(b.fs) && BStep(b, act).Done? && id in b.replays && HasSent(b.replays[id])
    ensures act != Fetch(id) || IsFinished(b, id) ==>
              id in BStep(b, act).value.replays && BStep(b, act).value.replays[id] == b.replays[id]
  {
    hide Step, ReceivedText, ReplayedText;
  }

  // No other step begins or ends the reading.
  lemma OnlyFetchesFinish(b: BrokerState, act: Action, id: nat)
    requires Shaped(b.fs) && BStep(b, act).Done? && !IsFinished(b, id) && IsFinished(BStep(b, act).value, id)
    ensures act == Fetch(id) && IsReading(b, id)
  {
    hide Step, ReceivedText, ReplayedText;
  }

  // A fetch, in any good state, sends the next text of a log that goes on, and
  // finishes exactly when everything recorded by now is sent.
  lemma FetchEffect(b: BrokerState, id: nat)
    requires BInv(b) && Allowed(b, Fetch(id)) && IsReading(b, id)
    ensures Shaped(b.fs) && Fine(FetchStep(b, id))
    ensures var Reading(path, fd, junk, sent) := b.replays[id];
            var c := FetchStep(b, id).value;
            && path in b.boxes && |sent| <= |b.boxes[path].log| && c.boxes == b.boxes && id in c.replays
            && if |sent| < |b.boxes[path].log|
               then IsReading(c, id) && c.replays[id].path == path && |c.replays[id].sent| == |sent| + 1
               else c.replays[id] == Finished(path, fd, junk, sent)
  {
    hide Tidy, Good, FetchStep, ReplayedText, AllTexts;
    FetchFine(b, id);
    FetchOnce(b, id);
    var path := b.replays[id].path;
    if b.replays[id].sent == [] {
      assert NextText(b, id) == ReplayedText(b.replays[id].junk, b.boxes[path].log[0]);
    }
  }

  // What a replay has sent when it has sent everything recorded.
  lemma AllIsSent(b: BrokerState, id: nat)
    requires BInv(b) && IsReading(b, id) && Allowed(b, Fetch(id))
    requires b.replays[id].path in b.boxes && |b.replays[id].sent| == |b.boxes[b.replays[id].path].log|
    ensures SentAll(b.replays[id].junk, b.boxes[b.replays[id].path].log, b.replays[id].sent)
  {
    hide Tidy, Good, RunsOn;
    BoxesHoldTheirLogs(b, b.replays[id].path);
  }

  // Whether that is the log itself is decided by the uncleared buffer.
  lemma WholeExact(junk: Buffer, log: seq<Message>, sent: seq<seq<byte>>)
    requires AllTexts(log) && SentAll(junk, log, sent)
    ensures log != [] && |sent| == |log| && (sent == log <==> NulBehind(junk, log[0]))
  {
    assert RunsOn(junk, log[0], sent[0]);
    if NulBehind(junk, log[0]) {
      assert sent[0] == log[0];
    }
  }

  // ---- runs ----

  lemma {:induction false} RunSplit(b: BrokerState, acts: seq<Action>, m: nat)
    requires BInv(b) && AllowedRun(b, acts) && m <= |acts|
    ensures Shaped(b.fs) && Fine(Exec(b, acts[..m])) && AllowedRun(Exec(b, acts[..m]).value, acts[m..])
    ensures Exec(Exec(b, acts[..m]).value, acts[m..]) == Exec(b, acts)
    decreases |acts|
  {
    hide BInv, BStep, Allowed;
    if m == 0 {
      ShapedFs(b);
      assert acts[0..] == acts;
    } else {
      StepFine(b, acts[0]);
      assert acts[..m][0] == acts[0] && acts[..m][1..] == acts[1..][..m - 1] && acts[m..] == acts[1..][m - 1..];
      RunSplit(BStep(b, acts[0]).value, acts[1..], m - 1);
    }
  }

  // The replay's last fetch is step n of the run, and the replay has sent exactly
  // what was recorded in its box then: everything recorded at the beginning of the
  // run, and nothing that is not recorded at its end.
  ghost predicate EndsAt(b: BrokerState, acts: seq<Action>, n: nat, id: nat, replay: Replay)
    requires Shaped(b.fs) && replay.Finished?
  {
    && n < |acts| && acts[n] == Fetch(id) && Exec(b, acts[..n]).Done? && Exec(b, acts).Done?
    && var d, c := Exec(b, acts[..n]).value, Exec(b, acts).value;
    && IsReading(d, id) && replay.path in d.boxes && replay.path in c.boxes
    && SentAll(replay.junk, d.boxes[replay.path].log, replay.sent)
    && (replay.path in b.boxes ==> b.boxes[replay.path].log <= d.boxes[replay.path].log)
    && d.boxes[replay.path].log <= c.boxes[replay.path].log
  }

  // In every interleaving: a replay that finishes during a run has sent exactly
  // the log of its box as it was at the replay's last fetch.
  lemma {:induction false} ReplayFinishes(b: BrokerState, acts: seq<Action>, id: nat) returns (n: nat)
    requires BInv(b) && AllowedRun(b, acts) && !IsFinished(b, id)
    requires Shaped(b.fs) && Exec(b, acts).Done? && IsFinished(Exec(b, acts).value, id)
    ensures EndsAt(b, acts, n, id, Exec(b, acts).value.replays[id])
    decreases |acts|
  {
    hide BInv, BStep, Allowed, Later;
    if acts == [] {
      assert false;
    } else {
      StepFine(b, acts[0]);
      StepLater(b, acts[0]);
      var b1 := BStep(b, acts[0]).value;
      ShapedFs(b1);
      if IsFinished(b1, id) {
        n := 0;
        FinishesNow(b, acts, id);
      } else {
        n := ReplayFinishes(b1, acts[1..], id);
        EndsLater(b, acts, n, id);
        n := n + 1;
      }
    }
  }

  // It finishes with the first step.
  lemma FinishesNow(b: BrokerState, acts: seq<Action>, id: nat)
    requires BInv(b) && AllowedRun(b, acts) && acts != [] && !IsFinished(b, id)
    requires Shaped(b.fs) && BStep(b, acts[0]).Done? && IsFinished(BStep(b, acts[0]).value, id)
    ensures Exec(b, acts).Done? && IsFinished(Exec(b, acts).value, id)
    ensures EndsAt(b, acts, 0, id, Exec(b, acts).value.replays[id])
  {
    hide BInv, BStep, Allowed, SentAll, Written, Sent;
    var b1 := BStep(b, acts[0]).value;
    OnlyFetchesFinish(b, acts[0], id);
    FetchBStep(b, id);
    FetchEffect(b, id);
    AllIsSent(b, id);
    FinishedStays(b1, acts[1..], id);
    RunLater(b, acts);
    assert acts[..0] == [];
  }

  lemma {:induction false} FinishedStays(b: BrokerState, acts: seq<Action>, id: nat)
    requires Shaped(b.fs) && IsFinished(b, id)
    ensures Exec(b, acts).Done? ==>
              id in Exec(b, acts).value.replays && Exec(b, acts).value.replays[id] == b.replays[id]
    decreases |acts|
  {
    hide BStep;
    if acts == [] {
    } else if BStep(b, acts[0]).Done? {
      OnlyFetchesMove(b, acts[0], id);
      FinishedStays(BStep(b, acts[0]).value, acts[1..], id);
    }
  }

  lemma EndsLater(b: BrokerState, acts: seq<Action>, n: nat, id: nat)
    requires BInv(b) && AllowedRun(b, acts) && acts != []
    requires Shaped(b.fs) && BStep(b, acts[0]).Done? && Later(b, BStep(b, acts[0]).value)
    requires Exec(b, acts).Done? && IsFinished(Exec(b, acts).value, id)
    requires EndsAt(BStep(b, acts[0]).value, acts[1..], n, id, Exec(b, acts).value.replays[id])
    ensures EndsAt(b, acts, n + 1, id, Exec(b, acts).value.replays[id])
  {
    hide BInv, BStep, Allowed, SentAll, Written, Sent, AllowedRun;
    assert acts[..n + 1][0] == acts[0] && acts[..n + 1][1..] == acts[1..][..n];
  }

  // For a replay that anything may interrupt: it delivers that log exactly as it
  // was stored if and only if its buffer held a NUL right behind the first message.
  lemma InterleavedExact(b: BrokerState, acts: seq<Action>, id: nat) returns (n: nat, log: seq<Message>)
    requires BInv(b) && AllowedRun(b, acts) && !IsFinished(b, id)
    requires Shaped(b.fs) && Exec(b, acts).Done? && IsFinished(Exec(b, acts).value, id)
    ensures var replay := Exec(b, acts).value.replays[id];
            && EndsAt(b, acts, n, id, replay) && log == Exec(b, acts[..n]).value.boxes[replay.path].log
            && log != [] && |replay.sent| == |log| && (replay.sent == log <==> NulBehind(replay.junk, log[0]))
  {
    hide BInv, Exec, AllowedRun, SentAll;
    n := ReplayFinishes(b, acts, id);
    RunSplit(b, acts, n);
    var d, replay := Exec(b, acts[..n]).value, Exec(b, acts).value.replays[id];
    log := d.boxes[replay.path].log;
    BoxTexts(d, replay.path);
    WholeExact(replay.junk, log, replay.sent);
  }

  // So it has sent everything that was recorded at any time before it finished,
  // for one when it began.
  lemma SendsWhatWasThere(b: BrokerState, acts: seq<Action>, m: nat, id: nat)
    requires BInv(b) && AllowedRun(b, acts) && m <= |acts| && Shaped(b.fs)
    requires Exec(b, acts).Done? && IsFinished(Exec(b, acts).value, id)
    requires Exec(b, acts[..m]).Done? && !IsFinished(Exec(b, acts[..m]).value, id)
    requires Exec(b, acts).value.replays[id].path in Exec(b, acts[..m]).value.boxes
    ensures var replay := Exec(b, acts).value.replays[id];
            |Exec(b, acts[..m]).value.boxes[replay.path].log| <= |replay.sent|
  {
    hide BInv, Exec, AllowedRun, ReplayedText;
    RunSplit(b, acts, m);
    var d := Exec(b, acts[..m]).value;
    ShapedFs(d);
    var n := ReplayFinishes(d, acts[m..], id);
  }

  // ---- every fetch counts ----

  function Fetched(acts: seq<Action>, id: nat): nat {
    if acts == [] then 0 else (if acts[0] == Fetch(id) then 1 else 0) + Fetched(acts[1..], id)
  }

  // A replay that is still reading has sent one text for each fetch.
  lemma {:induction false} FetchesCount(b: BrokerState, acts: seq<Action>, id: nat)
    requires BInv(b) && AllowedRun(b, acts) && IsReading(b, id)
    ensures Shaped(b.fs) && Fine(Exec(b, acts))
    ensures var c := Exec(b, acts).value;
            && id in c.replays && HasSent(c.replays[id]) && c.replays[id].path == b.replays[id].path
            && (IsReading(c, id) ==> |c.replays[id].sent| == |b.replays[id].sent| + Fetched(acts, id))
    decreases |acts|
  {
    hide BInv, BStep, Allowed;
    ShapedFs(b);
    if acts == [] {
    } else {
      StepFine(b, acts[0]);
      var b1 := BStep(b, acts[0]).value;
      if acts[0] == Fetch(id) {
        FetchBStep(b, id);
        FetchEffect(b, id);
      } else {
        OnlyFetchesMove(b, acts[0], id);
      }
      if IsReading(b1, id) {
        FetchesCount(b1, acts[1..], id);
      } else {
        RunFine(b1, acts[1..]);
        FinishedStays(b1, acts[1..], id);
      }
    }
  }

  lemma FetchBStep(b: BrokerState, id: nat)
    requires Shaped(b.fs)
    ensures BStep(b, Fetch(id)) == FetchStep(b, id)
  {
    hide FetchStep;
  }

  // Whatever is interleaved with it, a replay that has made more fetches than there
  // are messages left to send by the end of the run has finished.
  lemma FetchesFinish(b: BrokerState, acts: seq<Action>, id: nat)
    requires BInv(b) && AllowedRun(b, acts) && IsReading(b, id)
    ensures Shaped(b.fs) && Fine(Exec(b, acts))
    ensures var c, path := Exec(b, acts).value, b.replays[id].path;
            && path in c.boxes
            && (|b.replays[id].sent| + Fetched(acts, id) > |c.boxes[path].log| ==> IsFinished(c, id))
  {
    hide BInv, Exec, AllowedRun, Fetched;
    FetchesCount(b, acts, id);
    SentWithinLog(Exec(b, acts).value, id);
  }

  lemma SentWithinLog(c: BrokerState, id: nat)
    requires BInv(c) && id in c.replays && HasSent(c.replays[id])
    ensures c.replays[id].path in c.boxes && |c.replays[id].sent| <= |c.boxes[c.replays[id].path].log|
  {
    hide Tidy, Inv, Represents, NoneStranded, Abs, Good, ReplayOk;
    ReplayFacts(Abs(c.fs), c, id);
    SentSoFar(Abs(c.fs), c, id);
  }
}
