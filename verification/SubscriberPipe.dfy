// A subscriber reads its pipe 1029 bytes at a time, but frames are 1025 bytes
// long: it stays in step exactly as long as no read finds two of them.
module SubscriberPipe {
  import opened Prelude
  import opened Bytes
  import opened Framing

  const FRAME_SIZE := 1 + TEXT_SIZE

  // The bytes waiting in the pipe, what was printed so far, and whether the client
  // still runs; an unknown code ends it.
  datatype Client = Client(pipe: seq<byte>, printed: seq<seq<byte>>, running: bool)

  // A write of at most PIPE_BUF bytes is atomic. `Take` is one pass of the client's
  // loop, with whatever its stack buffer held before; it waits on an empty pipe.
  datatype Event = Send(text: seq<byte>) | Take(answer: seq<byte>)

  predicate Sound(e: Event) {
    match e
    case Send(text) => IsText(text)
    case Take(answer) => |answer| == ANSWER_SIZE
  }

  predicate AllSound(events: seq<Event>) {
    forall i :: 0 <= i < |events| ==> Sound(events[i])
  }

  // How many bytes a read takes.
  function Chunk(pipe: seq<byte>): nat {
    if |pipe| < ANSWER_SIZE then |pipe| else ANSWER_SIZE
  }

  function Happen(c: Client, e: Event): Outcome<Client>
    requires Sound(e)
  {
    match e
    case Send(text) => Done(c.(pipe := c.pipe + TextFrame(OP_SUBSCRIBER_MESSAGE, text)))
    case Take(answer) =>
      if !c.running || c.pipe == [] then Done(c)
      else
        var n := Chunk(c.pipe);
        var text :- PrintedText(answer, c.pipe[..n]);
        Done(Client(c.pipe[n..], c.printed + (if text.Some? then [text.value] else []), text.Some?))
  }

  function Run(c: Client, events: seq<Event>): Outcome<Client>
    requires AllSound(events)
    decreases |events|
  {
    if events == [] then Done(c)
    else
      assert Sound(events[0]) && AllSound(events[1..]);
      var d :- Happen(c, events[0]);
      Run(d, events[1..])
  }

  function TextsSent(events: seq<Event>): seq<seq<byte>> {
    if events == [] then []
    else (if events[0].Send? then [events[0].text] else []) + TextsSent(events[1..])
  }

  // No read finds more than one frame.
  ghost predicate OneAtATime(c: Client, events: seq<Event>)
    requires AllSound(events)
    decreases |events|
  {
    if events == [] then true
    else
      assert Sound(events[0]) && AllSound(events[1..]);
      && (events[0].Take? ==> |c.pipe| <= FRAME_SIZE)
      && (Happen(c, events[0]).Done? ==> OneAtATime(Happen(c, events[0]).value, events[1..]))
  }

  // Everything that was sent has been read.
  predicate Drained(r: Outcome<Client>) {
    r.Done? ==> r.value.pipe == []
  }

  predicate HasPrinted(r: Outcome<Client>, texts: seq<seq<byte>>) {
    r.Done? && r.value.printed == texts
  }

  // The frames of these texts, one behind the other.
  function Waiting(texts: seq<seq<byte>>): seq<byte>
    requires AllTexts(texts)
  {
    assert texts != [] ==> IsText(texts[0]) && AllTexts(texts[1..]);
    if texts == [] then [] else TextFrame(OP_SUBSCRIBER_MESSAGE, texts[0]) + Waiting(texts[1..])
  }

  lemma {:induction false} WaitingMore(texts: seq<seq<byte>>, text: seq<byte>)
    requires AllTexts(texts) && IsText(text)
    ensures Waiting(texts + [text]) == Waiting(texts) + TextFrame(OP_SUBSCRIBER_MESSAGE, text)
  {
    hide TextFrame;
    if texts == [] {
      assert [] + [text] == [text] && [text][1..] == [];
      assert TextFrame(OP_SUBSCRIBER_MESSAGE, text) + [] == [] + TextFrame(OP_SUBSCRIBER_MESSAGE, text);
    } else {
      assert (texts + [text])[1..] == texts[1..] + [text];
      WaitingMore(texts[1..], text);
    }
  }

  lemma RunCons(c: Client, events: seq<Event>)
    requires AllSound(events) && events != []
    ensures Sound(events[0]) && AllSound(events[1..])
    ensures Run(c, events) ==
            if Happen(c, events[0]).Done? then Run(Happen(c, events[0]).value, events[1..]) else Happen(c, events[0])
  {
  }

  // What was printed stays printed.
  lemma {:induction false} PrintedGrows(c: Client, events: seq<Event>)
    requires AllSound(events)
    ensures Run(c, events).Done? ==> c.printed <= Run(c, events).value.printed
    ensures !c.running ==> Run(c, events).Done? && Run(c, events).value.printed == c.printed
    decreases |events|
  {
    hide PrintedText;
    if events == [] {
    } else {
      RunCons(c, events);
      if Happen(c, events[0]).Done? {
        PrintedGrows(Happen(c, events[0]).value, events[1..]);
      }
    }
  }

  lemma FrameBytes(text: seq<byte>, j: nat)
    requires IsText(text) && j < FRAME_SIZE
    ensures TextFrame(OP_SUBSCRIBER_MESSAGE, text)[j] ==
            if j == 0 then OP_SUBSCRIBER_MESSAGE else if j <= |text| then text[j - 1] else NUL
  {
  }

  // A buffer whose front holds such a frame without its first four bytes holds the
  // text without its first four characters behind the code.
  lemma RestOfText(filled: seq<byte>, text: seq<byte>)
    requires IsText(text) && |filled| == ANSWER_SIZE
    requires filled[..FRAME_SIZE - 4] == TextFrame(OP_SUBSCRIBER_MESSAGE, text)[4..]
    ensures filled[0] == if |text| >= 4 then text[3] else NUL
    ensures |text| >= 4 ==> StrLen(filled[1..FRAME_SIZE]) == |text| - 4
  {
    hide TextFrame;
    forall j | 0 <= j < FRAME_SIZE - 4 ensures filled[j] == if j + 4 <= |text| then text[j + 3] else NUL {
      FrameBytes(text, j + 4);
      assert filled[j] == filled[..FRAME_SIZE - 4][j];
    }
    if |text| >= 4 {
      var message := filled[1..FRAME_SIZE];
      assert forall j :: 0 <= j < |text| - 4 ==> message[j] == text[j + 4];
      assert message[|text| - 4] == filled[|text| - 3];
      StrLenIs(message, |text| - 4);
    }
  }

  // One read of a running client takes up to 1029 bytes. If they begin with another
  // byte than 10 nothing is printed and the client stops, and in no other case.
  lemma StopsExactly(c: Client, answer: seq<byte>)
    requires |answer| == 1029 && c.running && c.pipe != []
    ensures var r := Happen(c, Take(answer));
            && (r.Done? && !r.value.running <==> c.pipe[0] != 10)
            && (c.pipe[0] != 10 ==> r.value.printed == c.printed)
            && (r.Done? ==> r.value.pipe == if |c.pipe| < 1029 then [] else c.pipe[1029..])
  {
    var chunk := c.pipe[..Chunk(c.pipe)];
    PrintedExactly(answer, chunk, []);
    hide PrintedText;
  }

  // A read that starts four bytes inside the frame of a text stops the client,
  // unless the fourth character of the text is the code: then it prints the rest.
  lemma ReadsInside(c: Client, answer: seq<byte>, text: seq<byte>, more: seq<byte>)
    requires IsText(text) && |answer| == ANSWER_SIZE && c.running
    requires c.pipe == TextFrame(OP_SUBSCRIBER_MESSAGE, text)[4..] + more
    ensures Happen(c, Take(answer)).Done?
    ensures var d := Happen(c, Take(answer)).value;
            if |text| < 4 || text[3] != 10 then d.printed == c.printed && !d.running
            else d.printed == c.printed + [text[4..]] && d.running
  {
    hide TextFrame;
    var n := Chunk(c.pipe);
    var filled := Splice(answer, 0, c.pipe[..n]);
    var rest := TextFrame(OP_SUBSCRIBER_MESSAGE, text)[4..];
    assert c.pipe[..n][..FRAME_SIZE - 4] == rest;
    assert filled[..FRAME_SIZE - 4] == rest;
    RestOfText(filled, text);
    if |text| >= 4 && text[3] == 10 {
      assert filled[1..FRAME_SIZE][..|text| - 4] == text[4..] by {
        FrameRest(text);
        assert forall j :: 0 <= j < |text| - 4 ==> filled[1..FRAME_SIZE][j] == rest[1..][j];
        assert forall j :: 0 <= j < |text| - 4 ==> rest[1..][j] == text[4..][j];
      }
    }
  }

  lemma FrameRest(text: seq<byte>)
    requires IsText(text)
    ensures forall j :: 0 <= j < |text| - 4 ==> TextFrame(OP_SUBSCRIBER_MESSAGE, text)[4..][j + 1] == text[4..][j]
  {
    hide TextFrame;
    forall j | 0 <= j < |text| - 4 ensures TextFrame(OP_SUBSCRIBER_MESSAGE, text)[4..][j + 1] == text[4..][j] {
      FrameBytes(text, j + 5);
    }
  }

  // Once a read has started inside a frame, that frame's text is not what is
  // printed next, whatever comes later.
  lemma {:induction false} NeverInStepAgain(c: Client, events: seq<Event>, text: seq<byte>, more: seq<byte>,
                                            later: seq<seq<byte>>)
    requires AllSound(events) && IsText(text) && c.running
    requires c.pipe == TextFrame(OP_SUBSCRIBER_MESSAGE, text)[4..] + more
    requires Drained(Run(c, events))
    ensures !HasPrinted(Run(c, events), c.printed + [text] + later)
    decreases |events|
  {
    hide TextFrame, PrintedText;
    if events == [] {
    } else {
      RunCons(c, events);
      match events[0]
      case Send(next) =>
        var frame := TextFrame(OP_SUBSCRIBER_MESSAGE, next);
        assert c.pipe + frame == TextFrame(OP_SUBSCRIBER_MESSAGE, text)[4..] + (more + frame);
        NeverInStepAgain(Happen(c, events[0]).value, events[1..], text, more + frame, later);
      case Take(answer) =>
        ReadsInside(c, answer, text, more);
        var d := Happen(c, Take(answer)).value;
        PrintedGrows(d, events[1..]);
        assert (c.printed + [text] + later)[|c.printed|] == text;
        assert |text| >= 4 ==> |text[4..]| < |text|;
    }
  }

  // A read that finds two frames prints the first and stops four bytes into the
  // second.
  lemma TakesTooMuch(c: Client, answer: seq<byte>, first: seq<byte>, second: seq<byte>, more: seq<byte>)
    requires IsText(first) && IsText(second) && |answer| == ANSWER_SIZE && c.running
    requires c.pipe == TextFrame(OP_SUBSCRIBER_MESSAGE, first) + (TextFrame(OP_SUBSCRIBER_MESSAGE, second) + more)
    ensures Happen(c, Take(answer)) ==
            Done(Client(TextFrame(OP_SUBSCRIBER_MESSAGE, second)[4..] + more, c.printed + [first], true))
  {
    hide PrintedText, TextFrame;
    var one, two := TextFrame(OP_SUBSCRIBER_MESSAGE, first), TextFrame(OP_SUBSCRIBER_MESSAGE, second);
    assert c.pipe[..ANSWER_SIZE][..FRAME_SIZE] == one;
    assert c.pipe[ANSWER_SIZE..] == two[4..] + more;
    Printed(answer, first, c.pipe[..ANSWER_SIZE]);
  }

  // A read that finds one frame prints its text and empties the pipe.
  lemma TakesOne(c: Client, answer: seq<byte>, text: seq<byte>)
    requires IsText(text) && |answer| == ANSWER_SIZE && c.running && c.pipe == TextFrame(OP_SUBSCRIBER_MESSAGE, text)
    ensures Happen(c, Take(answer)) == Done(Client([], c.printed + [text], true))
  {
    hide PrintedText, TextFrame;
    assert c.pipe[..Chunk(c.pipe)] == c.pipe && c.pipe[Chunk(c.pipe)..] == [];
    Printed(answer, text, c.pipe);
  }

  lemma SendsOne(c: Client, text: seq<byte>)
    requires IsText(text)
    ensures Happen(c, Send(text)) == Done(c.(pipe := c.pipe + TextFrame(OP_SUBSCRIBER_MESSAGE, text)))
  {
  }

  // From a subscriber in step, with the frames of these texts still in its pipe.
  lemma {:induction false} InStepExact(c: Client, events: seq<Event>, texts: seq<seq<byte>>)
    requires AllSound(events) && c.running && Drained(Run(c, events)) && AllTexts(texts) && c.pipe == Waiting(texts)
    ensures HasPrinted(Run(c, events), c.printed + texts + TextsSent(events)) <==> OneAtATime(c, events)
    decreases |events|
  {
    hide TextFrame, PrintedText, Happen, Waiting;
    if events == [] {
      NoneWaiting(texts);
      assert c.printed + [] + [] == c.printed;
    } else {
      RunCons(c, events);
      match events[0]
      case Send(text) =>
        SendsOne(c, text);
        WaitingMore(texts, text);
        var d := Happen(c, events[0]).value;
        InStepExact(d, events[1..], texts + [text]);
        assert d.printed + (texts + [text]) + TextsSent(events[1..]) == c.printed + texts + TextsSent(events);
      case Take(answer) =>
        if |texts| >= 2 {
          CrowdedRead(c, events, texts);
        } else {
          TakesAll(c, answer, texts);
          var d := Happen(c, events[0]).value;
          InStepExact(d, events[1..], []);
          assert d.printed + [] + TextsSent(events[1..]) == c.printed + texts + TextsSent(events);
        }
    }
  }

  lemma NoneWaiting(texts: seq<seq<byte>>)
    requires AllTexts(texts) && Waiting(texts) == []
    ensures texts == []
  {
    hide TextFrame;
  }

  // A read that finds at most one frame prints its text and empties the pipe.
  lemma TakesAll(c: Client, answer: seq<byte>, texts: seq<seq<byte>>)
    requires |answer| == ANSWER_SIZE && c.running && AllTexts(texts) && c.pipe == Waiting(texts) && |texts| <= 1
    ensures Happen(c, Take(answer)) == Done(Client([], c.printed + texts, true)) && Waiting([]) == []
    ensures |c.pipe| <= FRAME_SIZE
  {
    hide TextFrame, PrintedText;
    if texts == [] {
      assert c.printed + [] == c.printed;
    } else {
      assert c.pipe == TextFrame(OP_SUBSCRIBER_MESSAGE, texts[0]);
      TakesOne(c, answer, texts[0]);
      assert texts == [texts[0]];
    }
  }

  // A read that finds two frames or more is the end of the right order.
  lemma CrowdedRead(c: Client, events: seq<Event>, texts: seq<seq<byte>>)
    requires AllSound(events) && events != [] && events[0].Take? && c.running && Drained(Run(c, events))
    requires AllTexts(texts) && c.pipe == Waiting(texts) && |texts| >= 2
    ensures !HasPrinted(Run(c, events), c.printed + texts + TextsSent(events))
    ensures |c.pipe| > FRAME_SIZE
  {
    hide TextFrame, PrintedText, Happen, Run, Waiting, IsText, HasPrinted;
    RunCons(c, events);
    var more := TwoWaiting(texts);
    TakesTooMuch(c, events[0].answer, texts[0], texts[1], more);
    var d := Happen(c, events[0]).value;
    assert TextsSent(events) == [] + TextsSent(events[1..]) == TextsSent(events[1..]);
    var later := texts[2..] + TextsSent(events);
    NeverInStepAgain(d, events[1..], texts[1], more, later);
    Regroup(c.printed, texts, TextsSent(events));
  }

  lemma Regroup(before: seq<seq<byte>>, texts: seq<seq<byte>>, after: seq<seq<byte>>)
    requires |texts| >= 2
    ensures before + [texts[0]] + [texts[1]] + (texts[2..] + after) == before + texts + after
  {
    assert texts == [texts[0]] + [texts[1]] + texts[2..];
  }

  lemma TwoWaiting(texts: seq<seq<byte>>) returns (more: seq<byte>)
    requires AllTexts(texts) && |texts| >= 2
    ensures IsText(texts[0]) && IsText(texts[1])
    ensures Waiting(texts) ==
            TextFrame(OP_SUBSCRIBER_MESSAGE, texts[0]) + (TextFrame(OP_SUBSCRIBER_MESSAGE, texts[1]) + more)
  {
    hide TextFrame;
    assert texts[1..][0] == texts[1];
    more := Waiting(texts[1..][1..]);
  }

  const NEW_CLIENT := Client([], [], true)

  // For every interleaving of frames sent and reads done after which the pipe is
  // empty: the subscriber has printed the texts it was sent, in order, if and only
  // if no read found more than one frame.
  lemma SubscriberExact(events: seq<Event>)
    requires AllSound(events) && Drained(Run(NEW_CLIENT, events))
    ensures HasPrinted(Run(NEW_CLIENT, events), TextsSent(events)) <==> OneAtATime(NEW_CLIENT, events)
  {
    hide Run, OneAtATime, TextsSent, AllSound;
    InStepExact(NEW_CLIENT, events, []);
    assert [] + [] + TextsSent(events) == TextsSent(events);
  }

  // Whatever happens later, the first text printed is the first one sent.
  lemma FirstPrinted(events: seq<Event>)
    requires AllSound(events)
    ensures var r, texts := Run(NEW_CLIENT, events), TextsSent(events);
            r.Done? && r.value.printed != [] ==> texts != [] && r.value.printed[0] == texts[0]
  {
    hide Run, TextsSent;
    FirstOfWaiting(NEW_CLIENT, events, []);
    assert [] + TextsSent(events) == TextsSent(events);
  }

  lemma {:induction false} FirstOfWaiting(c: Client, events: seq<Event>, texts: seq<seq<byte>>)
    requires AllSound(events) && c.running && c.printed == [] && AllTexts(texts) && c.pipe == Waiting(texts)
    ensures var r := Run(c, events);
            r.Done? && r.value.printed != [] ==>
              texts + TextsSent(events) != [] && r.value.printed[0] == (texts + TextsSent(events))[0]
    decreases |events|
  {
    hide TextFrame, PrintedText, Happen, Waiting;
    if events == [] {
    } else {
      RunCons(c, events);
      match events[0]
      case Send(text) =>
        SendsOne(c, text);
        WaitingMore(texts, text);
        FirstOfWaiting(Happen(c, events[0]).value, events[1..], texts + [text]);
        assert texts + TextsSent(events) == texts + [text] + TextsSent(events[1..]);
      case Take(answer) =>
        if texts == [] {
          TakesAll(c, answer, texts);
          assert c.printed + texts == c.printed && Happen(c, events[0]).value == c;
          FirstOfWaiting(c, events[1..], texts);
          assert TextsSent(events) == TextsSent(events[1..]);
        } else {
          TakesFirst(c, answer, texts);
          var d := Happen(c, events[0]).value;
          PrintedGrows(d, events[1..]);
          assert d.printed[0] == texts[0] == (texts + TextsSent(events))[0];
        }
    }
  }

  // A read in step prints the first text that is waiting.
  lemma TakesFirst(c: Client, answer: seq<byte>, texts: seq<seq<byte>>)
    requires |answer| == ANSWER_SIZE && c.running && AllTexts(texts) && c.pipe == Waiting(texts) && texts != []
    ensures Happen(c, Take(answer)).Done? && Happen(c, Take(answer)).value.printed == c.printed + [texts[0]]
  {
    hide TextFrame, PrintedText, Happen, Waiting;
    if |texts| == 1 {
      TakesAll(c, answer, texts);
      assert texts == [texts[0]];
    } else {
      var more := TwoWaiting(texts);
      TakesTooMuch(c, answer, texts[0], texts[1], more);
    }
  }
}
