// The frames on the pipes: text messages of 1025 bytes, registrations of 289.
module Framing {
  import opened Prelude
  import opened Bytes

  const OP_PUBLISHER_MESSAGE: byte := 9
  const OP_SUBSCRIBER_MESSAGE: byte := 10
  const TEXT_SIZE := 1024
  const PIPE_SIZE := 256
  const BOX_SIZE := 32
  const REGISTRATION_SIZE := 289
  const ANSWER_SIZE := 1029

  // ---- building frames in a malloc'ed buffer ----

  method MemCpy(dst: array<byte>, at: nat, src: seq<byte>)
    requires at + |src| <= dst.Length
    modifies dst
    ensures dst[..] == Splice(old(dst[..]), at, src)
  {
    for i := 0 to |src|
      invariant forall j :: at <= j < at + i ==> dst[j] == src[j - at]
      invariant forall j :: 0 <= j < dst.Length && !(at <= j < at + i) ==> dst[j] == old(dst[j])
    {
      dst[at + i] := src[i];
    }
  }

  method MemZero(dst: array<byte>, at: nat, n: nat)
    requires at + n <= dst.Length
    modifies dst
    ensures dst[..] == Splice(old(dst[..]), at, Zeros(n))
  {
    for i := 0 to n
      invariant forall j :: at <= j < at + i ==> dst[j] == NUL
      invariant forall j :: 0 <= j < dst.Length && !(at <= j < at + i) ==> dst[j] == old(dst[j])
    {
      dst[at + i] := NUL;
    }
  }

  // A string and the zeroes that fill up its field of n bytes.
  method PutField(dst: array<byte>, at: nat, s: CString, n: nat)
    requires |s| <= n && at + n <= dst.Length
    modifies dst
    ensures dst[..] == Splice(old(dst[..]), at, Padded(s, n))
  {
    MemCpy(dst, at, s);
    MemZero(dst, at + |s|, n - |s|);
  }

  // strlen on a buffer, which runs on into other memory if there is no NUL.
  method MeasureString(buf: array<byte>) returns (n: Outcome<nat>)
    ensures n == if Terminated(buf[..]) then Done(StrLen(buf[..])) else Wild
  {
    var i := 0;
    while i < buf.Length && buf[i] != NUL
      invariant i <= buf.Length && forall j :: 0 <= j < i ==> buf[j] != NUL
    {
      i := i + 1;
    }
    StrLenIs(buf[..], i);
    n := if i < buf.Length then Done(i) else Wild;
  }

  function TextFrame(code: byte, text: seq<byte>): (f: seq<byte>)
    requires |text| <= TEXT_SIZE
    ensures |f| == 1 + TEXT_SIZE
  {
    [code] + Padded(text, TEXT_SIZE)
  }

  function RegistrationFrame(code: byte, pipe: seq<byte>, box: seq<byte>): (f: seq<byte>)
    requires |pipe| <= PIPE_SIZE && |box| <= BOX_SIZE
    ensures |f| == REGISTRATION_SIZE
  {
    [code] + Padded(pipe, PIPE_SIZE) + Padded(box, BOX_SIZE)
  }

  // send_message of the publisher, and what create_message of the broker does with
  // a string it has measured.
  method CreateTextFrame(code: byte, text: CString) returns (message: array<byte>)
    requires |text| <= TEXT_SIZE
    ensures fresh(message) && message[..] == TextFrame(code, text)
  {
    message := new byte[1 + TEXT_SIZE];
    MemCpy(message, 0, [code]);
    PutField(message, 1, text, TEXT_SIZE);
  }

  // create_message of the broker, with its strlen of the buffer.
  method FrameBuffer(code: byte, buffer: array<byte>) returns (frame: Outcome<seq<byte>>)
    requires buffer.Length == TEXT_SIZE
    ensures frame == if Terminated(buffer[..]) then Done(TextFrame(code, CStr(buffer[..]))) else Wild
  {
    var n := MeasureString(buffer);
    if !n.Done? {
      return Wild;
    }
    var message := CreateTextFrame(code, buffer[..n.value]);
    return Done(message[..]);
  }

  // create_message of the publisher and of the subscriber.
  method CreateRegistration(code: byte, pipe: CString, box: CString) returns (message: array<byte>)
    requires |pipe| <= PIPE_SIZE && |box| <= BOX_SIZE
    ensures fresh(message) && message[..] == RegistrationFrame(code, pipe, box)
  {
    message := new byte[REGISTRATION_SIZE];
    ghost var blank := message[..];
    MemCpy(message, 0, [code]);
    PutField(message, 1, pipe, PIPE_SIZE);
    PutField(message, 1 + PIPE_SIZE, box, BOX_SIZE);
    RegistrationFilled(blank, code, pipe, box);
  }

  // The three copies fill the whole buffer.
  lemma RegistrationFilled(blank: seq<byte>, code: byte, pipe: seq<byte>, box: seq<byte>)
    requires |blank| == REGISTRATION_SIZE && |pipe| <= PIPE_SIZE && |box| <= BOX_SIZE
    ensures Splice(Splice(Splice(blank, 0, [code]), 1, Padded(pipe, PIPE_SIZE)), 1 + PIPE_SIZE, Padded(box, BOX_SIZE))
            == RegistrationFrame(code, pipe, box)
  {
    hide Padded;
  }

  // ---- reading registrations ----

  datatype Registration = Registration(code: byte, pipe: seq<byte>, box: seq<byte>)

  // The C strings in the two stack buffers of register_publisher and
  // register_subscriber; one without a terminator runs on into other memory.
  function ReadRegistration(code: byte, pipeBuf: seq<byte>, boxBuf: seq<byte>): Outcome<Registration> {
    if Terminated(pipeBuf) && Terminated(boxBuf) then Done(Registration(code, CStr(pipeBuf), CStr(boxBuf)))
    else Wild
  }

  // The broker reads 1 + 256 + 32 bytes for each registration.
  function ParseRegistrations(stream: seq<byte>): Outcome<seq<Registration>> {
    if |stream| < REGISTRATION_SIZE then Done([])
    else
      var r :- ReadRegistration(stream[0], stream[1..257], stream[257..289]);
      var rest :- ParseRegistrations(stream[289..]);
      Done([r] + rest)
  }

  // What check_args lets through.
  predicate Accepted(r: Registration) {
    NulFree(r.pipe) && NulFree(r.box) && |r.pipe| <= PIPE_SIZE && |r.box| <= BOX_SIZE
  }

  predicate AllAccepted(rs: seq<Registration>) {
    forall i :: 0 <= i < |rs| ==> Accepted(rs[i])
  }

  function Stream(rs: seq<Registration>): seq<byte>
    requires AllAccepted(rs)
  {
    assert rs != [] ==> Accepted(rs[0]);
    assert rs != [] ==> AllAccepted(rs[1..]);
    if rs == [] then [] else RegistrationFrame(rs[0].code, rs[0].pipe, rs[0].box) + Stream(rs[1..])
  }

  predicate LeavesRoom(r: Registration) {
    |r.pipe| < PIPE_SIZE && |r.box| < BOX_SIZE
  }

  lemma FrameFields(r: Registration, rest: seq<byte>)
    requires |r.pipe| <= PIPE_SIZE && |r.box| <= BOX_SIZE
    ensures var f := RegistrationFrame(r.code, r.pipe, r.box) + rest;
            f[0] == r.code && f[1..257] == Padded(r.pipe, PIPE_SIZE) && f[257..289] == Padded(r.box, BOX_SIZE) &&
            f[289..] == rest
  {
  }

  // A stream of registrations is read back as it was sent exactly when every name
  // leaves room for its terminator. check_args also lets names of the full 256
  // and 32 bytes through, and those are not read back.
  lemma {:induction false} RegistrationsRoundTrip(rs: seq<Registration>)
    requires AllAccepted(rs)
    ensures ParseRegistrations(Stream(rs)) == Done(rs) <==> forall i :: 0 <= i < |rs| ==> LeavesRoom(rs[i])
  {
    if rs == [] {
    } else {
      var r, rest := rs[0], rs[1..];
      assert Accepted(r);
      FrameFields(r, Stream(rest));
      PaddedString(r.pipe, PIPE_SIZE);
      PaddedString(r.box, BOX_SIZE);
      RegistrationsRoundTrip(rest);
      assert rs == [r] + rest;
      RoomSplit(rs);
    }
  }

  // A name of the full 256 or 32 bytes is accepted, and loses the registration and
  // all behind it.
  lemma FullNamesAreLost(r: Registration, rest: seq<Registration>)
    requires NulFree(r.pipe) && NulFree(r.box) && |r.pipe| <= 256 && |r.box| <= 32 && AllAccepted(rest)
    ensures AllAccepted([r] + rest)
    ensures ParseRegistrations(Stream([r] + rest)) == Wild <==>
              |r.pipe| == 256 || |r.box| == 32 || ParseRegistrations(Stream(rest)) == Wild
  {
    FrameFields(r, Stream(rest));
    PaddedString(r.pipe, 256);
    PaddedString(r.box, 32);
    assert ([r] + rest)[1..] == rest;
  }

  lemma RoomSplit(rs: seq<Registration>)
    requires rs != []
    ensures (forall i :: 0 <= i < |rs| ==> LeavesRoom(rs[i])) <==>
            LeavesRoom(rs[0]) && forall i :: 0 <= i < |rs[1..]| ==> LeavesRoom(rs[1..][i])
  {
    if LeavesRoom(rs[0]) && forall i :: 0 <= i < |rs[1..]| ==> LeavesRoom(rs[1..][i]) {
      forall i | 0 <= i < |rs| ensures LeavesRoom(rs[i]) {
        assert i > 0 ==> rs[i] == rs[1..][i - 1];
      }
    }
  }

  // ---- a text from publisher to subscriber ----

  // A message buffer of the broker or of its clients.
  type Buffer = b: seq<byte> | |b| == TEXT_SIZE witness Zeros(TEXT_SIZE)

  // What strlen can cut from a terminated buffer.
  predicate IsText(m: seq<byte>) {
    NulFree(m) && |m| < TEXT_SIZE
  }

  predicate AllTexts(texts: seq<seq<byte>>) {
    forall k :: 0 <= k < |texts| ==> IsText(texts[k])
  }

  // The buffer holds a NUL right behind the place of the text.
  predicate NulBehind(buffer: Buffer, text: seq<byte>) {
    |text| < 1024 && buffer[|text|] == 0
  }

  // The buffer holds a NUL at position n or behind it.
  predicate NulFrom(buffer: Buffer, n: nat) {
    exists j :: n <= j < 1024 && buffer[j] == 0
  }

  // The text is the stored one and whatever the buffer holds behind its place, up to
  // the next NUL.
  predicate RunsOn(buffer: Buffer, stored: seq<byte>, text: seq<byte>) {
    && |stored| <= |text| < 1024 && text[..|stored|] == stored && buffer[|text|] == 0
    && forall j :: |stored| <= j < |text| ==> text[j] == buffer[j] && buffer[j] != 0
  }

  // read_publisher_pipe_input: what write_to_box is given for the 1024 bytes that
  // were read behind the code; strlen runs on if they hold no NUL.
  function ReceivedText(body: Buffer): (r: Outcome<seq<byte>>)
    ensures r.Done? ==> IsText(r.value)
    ensures r.Done? || r == Wild
  {
    if Terminated(body) then Done(CStr(body)) else Wild
  }

  // get_old_messages and create_message: the text that is framed for a stored
  // message that was read into `buffer`, whose bytes behind the message are what
  // they were before.
  function ReplayedText(buffer: Buffer, stored: seq<byte>): (r: Outcome<seq<byte>>)
    ensures r.Done? ==> IsText(r.value)
    ensures r.Done? || r == Wild
  {
    if |stored| > TEXT_SIZE then Wild
    else
      var message := Splice(buffer, 0, stored);
      if Terminated(message) then Done(CStr(message)) else Wild
  }

  // The frames of these texts.
  function FramesOf(texts: seq<seq<byte>>): (frames: seq<seq<byte>>)
    requires AllTexts(texts)
    ensures |frames| == |texts|
  {
    seq(|texts|, k requires 0 <= k < |texts| && IsText(texts[k]) => TextFrame(OP_SUBSCRIBER_MESSAGE, texts[k]))
  }

  // read_pipe_input of the subscriber: what is printed for the bytes that one read
  // put at the front of its buffer; nothing for another code.
  function PrintedText(answer: seq<byte>, chunk: seq<byte>): Outcome<Option<seq<byte>>>
    requires |answer| == ANSWER_SIZE && |chunk| <= ANSWER_SIZE
  {
    var filled := Splice(answer, 0, chunk);
    if filled[0] != OP_SUBSCRIBER_MESSAGE then Done(None)
    else if Terminated(filled[1..1 + TEXT_SIZE]) then Done(Some(CStr(filled[1..1 + TEXT_SIZE])))
    else Wild
  }

  // listen_to_publisher, on everything that comes through the pipe: a byte 9 and the
  // 1024 bytes behind it are a message, any other byte is skipped. A message that is
  // torn leaves part of the broker's buffer as it was.
  function ReadMessages(stream: seq<byte>): Outcome<seq<seq<byte>>>
    decreases |stream|
  {
    if stream == [] then Done([])
    else if stream[0] != OP_PUBLISHER_MESSAGE then ReadMessages(stream[1..])
    else if |stream| < 1 + TEXT_SIZE then Wild
    else
      var text :- ReceivedText(stream[1..1 + TEXT_SIZE]);
      var rest :- ReadMessages(stream[1 + TEXT_SIZE..]);
      Done([text] + rest)
  }

  // The frames of these lines, as a publisher sends them.
  function LineFrames(lines: seq<seq<byte>>): seq<byte>
    requires AllTexts(lines)
  {
    assert lines != [] ==> IsText(lines[0]) && AllTexts(lines[1..]);
    if lines == [] then [] else TextFrame(OP_PUBLISHER_MESSAGE, lines[0]) + LineFrames(lines[1..])
  }

  // What publishers frame is what the broker reads, line by line, wherever the
  // frames begin with the byte 9.
  lemma {:induction false} LinesRoundTrip(lines: seq<seq<byte>>)
    requires AllTexts(lines)
    ensures ReadMessages(LineFrames(lines)) == Done(lines)
    ensures lines != [] ==> LineFrames(lines)[0] == 9 && |LineFrames(lines)| == 1025 * |lines|
  {
    if lines == [] {
    } else {
      assert IsText(lines[0]) && AllTexts(lines[1..]);
      LinesRoundTrip(lines[1..]);
      StoredText(lines[0]);
      var frame, rest := TextFrame(OP_PUBLISHER_MESSAGE, lines[0]), LineFrames(lines[1..]);
      assert (frame + rest)[1..1 + TEXT_SIZE] == frame[1..] && (frame + rest)[1 + TEXT_SIZE..] == rest;
      assert lines == [lines[0]] + lines[1..];
    }
  }

  // Bytes other than 9 in front of a stream change nothing.
  lemma {:induction false} SkipsOtherBytes(junk: seq<byte>, stream: seq<byte>)
    requires forall j :: 0 <= j < |junk| ==> junk[j] != 9
    ensures ReadMessages(junk + stream) == ReadMessages(stream)
    decreases |junk|
  {
    if junk == [] {
      assert junk + stream == stream;
    } else {
      assert (junk + stream)[1..] == junk[1..] + stream;
      SkipsOtherBytes(junk[1..], stream);
    }
  }

  // The broker receives exactly the line that the publisher framed.
  lemma StoredText(line: CString)
    requires |line| < TEXT_SIZE
    ensures |TextFrame(OP_PUBLISHER_MESSAGE, line)[1..]| == TEXT_SIZE
    ensures ReceivedText(TextFrame(OP_PUBLISHER_MESSAGE, line)[1..]) == Done(line)
  {
    PaddedString(line, TEXT_SIZE);
    assert TextFrame(OP_PUBLISHER_MESSAGE, line)[1..] == Padded(line, TEXT_SIZE);
  }

  // A stored text that is read into a buffer is framed as far as the buffer runs on
  // behind it, and strlen leaves the buffer exactly if no NUL follows.
  lemma ReplayedExactly(buffer: Buffer, stored: seq<byte>, text: seq<byte>)
    requires IsText(stored)
    ensures ReplayedText(buffer, stored) == Done(text) <==> RunsOn(buffer, stored, text)
    ensures ReplayedText(buffer, stored) == Wild <==> !NulFrom(buffer, |stored|)
  {
    var message := Splice(buffer, 0, stored);
    CutIs(message, text);
    hide StrLen, CStr, Terminated;
    if RunsOn(buffer, stored, text) {
      forall j | 0 <= j < |text| ensures message[j] == text[j] && text[j] != 0 {
        assert j < |stored| ==> text[j] == text[..|stored|][j];
      }
    }
    if NUL in message {
      var j :| 0 <= j < 1024 && message[j] == 0;
      assert j >= |stored| && buffer[j] == 0;
    }
    if ReplayedText(buffer, stored) == Done(text) {
      TextCovers(buffer, stored, text);
    }
    if NulFrom(buffer, |stored|) {
      var j :| |stored| <= j < 1024 && buffer[j] == 0;
      assert message[j] == 0;
    }
  }

  lemma TextCovers(buffer: Buffer, stored: seq<byte>, text: seq<byte>)
    requires IsText(stored) && ReplayedText(buffer, stored) == Done(text)
    ensures RunsOn(buffer, stored, text)
  {
    var message := Splice(buffer, 0, stored);
    CutIs(message, text);
    hide StrLen, CStr, Terminated;
    assert message[|text|] == 0;
    assert |stored| <= |text|;
    forall j | |stored| <= j < |text| ensures text[j] == buffer[j] && buffer[j] != 0 {
      assert message[j] == text[j];
    }
    assert text[..|stored|] == stored by {
      assert forall j :: 0 <= j < |stored| ==> message[j] == text[j];
    }
  }

  // So it is framed again unchanged exactly when the buffer holds a NUL right behind.
  lemma ReplayedExact(buffer: Buffer, text: seq<byte>)
    requires IsText(text)
    ensures ReplayedText(buffer, text) == Done(text) <==> NulBehind(buffer, text)
  {
    ReplayedExactly(buffer, text, text);
  }

  // What a read makes the subscriber print: nothing exactly if the first byte that
  // it put into the buffer is not 10; otherwise the bytes behind it up to a NUL,
  // which must come before the 1024 bytes are over.
  lemma PrintedExactly(answer: seq<byte>, chunk: seq<byte>, text: seq<byte>)
    requires |answer| == 1029 && 0 < |chunk| <= 1029
    ensures PrintedText(answer, chunk) == Done(None) <==> chunk[0] != 10
    ensures var filled := chunk + answer[|chunk|..];
            && (PrintedText(answer, chunk) == Done(Some(text)) <==>
                  chunk[0] == 10 && |text| < 1024 && filled[1..1 + |text|] == text && filled[1 + |text|] == 0 &&
                  forall j :: 0 <= j < |text| ==> text[j] != 0)
            && (PrintedText(answer, chunk) == Wild <==>
                  chunk[0] == 10 && forall j :: 1 <= j < 1025 ==> filled[j] != 0)
  {
    var filled := chunk + answer[|chunk|..];
    assert Splice(answer, 0, chunk) == filled;
    var message := filled[1..1025];
    CutIs(message, text);
    hide StrLen, CStr, Terminated;
    assert forall j :: 0 <= j < 1024 ==> message[j] == filled[j + 1];
    if |text| < 1024 {
      assert message[|text|] == filled[1 + |text|];
      assert filled[1..1 + |text|] == message[..|text|];
      assert message[..|text|] == text <==> forall j :: 0 <= j < |text| ==> message[j] == text[j];
    }
    if NUL in message {
      var j :| 0 <= j < 1024 && message[j] == 0;
      assert filled[j + 1] == 0;
    }
    if j :| 1 <= j < 1025 && filled[j] == 0 {
      assert message[j - 1] == 0;
    }
  }

  // From a chunk that begins with a frame the subscriber prints exactly its text.
  lemma Printed(answer: seq<byte>, text: CString, chunk: seq<byte>)
    requires |answer| == ANSWER_SIZE && |text| < TEXT_SIZE && |chunk| <= ANSWER_SIZE
    requires TextFrame(OP_SUBSCRIBER_MESSAGE, text) <= chunk
    ensures PrintedText(answer, chunk) == Done(Some(text))
  {
    PaddedString(text, TEXT_SIZE);
    var filled := Splice(answer, 0, chunk);
    assert filled[..1 + TEXT_SIZE] == TextFrame(OP_SUBSCRIBER_MESSAGE, text);
    assert filled[1..1 + TEXT_SIZE] == filled[..1 + TEXT_SIZE][1..] == Padded(text, TEXT_SIZE);
  }
}
