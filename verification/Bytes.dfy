// Bytes, C strings held in fixed buffers, and copies into a larger buffer.
module Bytes {

  newtype byte = x: int | 0 <= x < 256

  const NUL: byte := 0

  predicate NulFree(s: seq<byte>) {
    forall i :: 0 <= i < |s| ==> s[i] != NUL
  }

  // The characters of a C string argument, terminator not included.
  type CString = s: seq<byte> | NulFree(s) witness []

  // strlen, cut off at the end of the buffer.
  function StrLen(buf: seq<byte>): (n: nat)
    ensures n <= |buf|
    ensures forall i :: 0 <= i < n ==> buf[i] != NUL
    ensures n < |buf| ==> buf[n] == NUL
  {
    if buf == [] || buf[0] == NUL then 0 else 1 + StrLen(buf[1..])
  }

  predicate Terminated(buf: seq<byte>) {
    StrLen(buf) < |buf|
  }

  // The C string that starts at the beginning of the buffer.
  function CStr(buf: seq<byte>): seq<byte> {
    buf[..StrLen(buf)]
  }

  function Zeros(n: nat): (z: seq<byte>)
    ensures |z| == n
    ensures forall i :: 0 <= i < n ==> z[i] == NUL
  {
    seq(n, _ => NUL)
  }

  // A string copied to the front of a buffer of n bytes whose rest is zeroed.
  function Padded(s: seq<byte>, n: nat): (r: seq<byte>)
    requires |s| <= n
    ensures |r| == n && r[..|s|] == s && forall i :: |s| <= i < n ==> r[i] == NUL
  {
    s + Zeros(n - |s|)
  }

  // The position of the first NUL determines the string.
  lemma StrLenIs(buf: seq<byte>, n: nat)
    requires n <= |buf|
    requires forall i :: 0 <= i < n ==> buf[i] != NUL
    requires n < |buf| ==> buf[n] == NUL
    ensures StrLen(buf) == n
  {
  }

  // What is cut from a buffer, told position by position.
  lemma CutIs(buf: seq<byte>, text: seq<byte>)
    ensures Terminated(buf) && CStr(buf) == text <==>
              && |text| < |buf| && buf[|text|] == NUL
              && forall j :: 0 <= j < |text| ==> buf[j] == text[j] && text[j] != NUL
    ensures Terminated(buf) <==> NUL in buf
  {
    if |text| < |buf| && buf[|text|] == NUL && forall j :: 0 <= j < |text| ==> buf[j] == text[j] && text[j] != NUL {
      StrLenIs(buf, |text|);
      assert CStr(buf) == text;
    }
    if NUL in buf {
      var j :| 0 <= j < |buf| && buf[j] == NUL;
      assert StrLen(buf) <= j;
    }
  }

  // A padded string is read back exactly; it is terminated only with room to spare.
  lemma PaddedString(s: seq<byte>, n: nat)
    requires NulFree(s) && |s| <= n
    ensures CStr(Padded(s, n)) == s
    ensures Terminated(Padded(s, n)) <==> |s| < n
  {
    StrLenIs(Padded(s, n), |s|);
  }

  // memcpy of src to position pos.
  function Splice(buf: seq<byte>, pos: nat, src: seq<byte>): (r: seq<byte>)
    requires pos + |src| <= |buf|
    ensures |r| == |buf|
    ensures forall i :: 0 <= i < |buf| ==>
              r[i] == if pos <= i < pos + |src| then src[i - pos] else buf[i]
  {
    buf[..pos] + src + buf[pos + |src|..]
  }
}
