// A box's log: messages stored one after the other in a file, with no framing,
// beside the list of their sizes.
module BoxLog {
  import opened Bytes

  type Message = seq<byte>

  function Flatten(log: seq<Message>): seq<byte> {
    if log == [] then [] else Flatten(log[..|log| - 1]) + log[|log| - 1]
  }

  function Sizes(log: seq<Message>): (sizes: seq<nat>)
    ensures |sizes| == |log| && forall i :: 0 <= i < |log| ==> sizes[i] == |log[i]|
  {
    seq(|log|, i requires 0 <= i < |log| => |log[i]|)
  }

  function Sum(sizes: seq<nat>): nat {
    if sizes == [] then 0 else Sum(sizes[..|sizes| - 1]) + sizes[|sizes| - 1]
  }

  // Replay: the file cut up again by the list of sizes.
  function Split(file: seq<byte>, sizes: seq<nat>): (log: seq<Message>)
    requires Sum(sizes) <= |file|
    ensures |log| == |sizes|
  {
    if sizes == [] then []
    else
      var start := Sum(sizes[..|sizes| - 1]);
      Split(file, sizes[..|sizes| - 1]) + [file[start..start + sizes[|sizes| - 1]]]
  }

  // The sizes sum up to the file, so every byte of it belongs to one message.
  lemma {:induction false} SizesSum(log: seq<Message>)
    ensures Sum(Sizes(log)) == |Flatten(log)|
  {
    if log == [] {
    } else {
      SizesSum(log[..|log| - 1]);
      assert Sizes(log)[..|log| - 1] == Sizes(log[..|log| - 1]);
    }
  }

  // Split undoes Flatten, whatever comes behind the log in the file.
  lemma {:induction false} SplitFlatten(log: seq<Message>, rest: seq<byte>)
    ensures Sum(Sizes(log)) <= |Flatten(log) + rest|
    ensures Split(Flatten(log) + rest, Sizes(log)) == log
  {
    SizesSum(log);
    if log == [] {
    } else {
      var most, last := log[..|log| - 1], log[|log| - 1];
      assert Sizes(log)[..|log| - 1] == Sizes(most);
      assert Flatten(log) + rest == Flatten(most) + (last + rest);
      SizesSum(most);
      SplitFlatten(most, last + rest);
      assert (Flatten(most) + (last + rest))[|Flatten(most)|..|Flatten(most)| + |last|] == last;
    }
  }

  // Flatten undoes Split when the sizes use up the file.
  lemma {:induction false} FlattenSplit(file: seq<byte>, sizes: seq<nat>)
    requires Sum(sizes) <= |file|
    ensures Flatten(Split(file, sizes)) == file[..Sum(sizes)]
    ensures Sizes(Split(file, sizes)) == sizes
  {
    if sizes == [] {
    } else {
      FlattenSplit(file, sizes[..|sizes| - 1]);
      var log := Split(file, sizes);
      assert log[..|log| - 1] == Split(file, sizes[..|sizes| - 1]);
    }
  }

  // The bytes of message k lie behind those of the messages before it.
  lemma {:induction false} MessageAt(log: seq<Message>, k: nat)
    requires k < |log|
    ensures |Flatten(log[..k])| + |log[k]| <= |Flatten(log)|
    ensures Flatten(log)[|Flatten(log[..k])|..|Flatten(log[..k])| + |log[k]|] == log[k]
    ensures Flatten(log[..k + 1]) == Flatten(log[..k]) + log[k]
  {
    assert log[..k + 1][..k] == log[..k];
    if k == |log| - 1 {
      assert log[..k + 1] == log;
    } else {
      var most := log[..|log| - 1];
      assert most[..k] == log[..k];
      MessageAt(most, k);
    }
  }

  lemma FlattenPush(log: seq<Message>, m: Message)
    ensures Flatten(log + [m]) == Flatten(log) + m
    ensures Sizes(log + [m]) == Sizes(log) + [|m|]
  {
    assert (log + [m])[..|log|] == log;
  }

  lemma {:induction false} FlattenBoth(x: seq<Message>, y: seq<Message>)
    ensures Flatten(x + y) == Flatten(x) + Flatten(y)
  {
    if y == [] {
      assert x + y == x && Flatten(x) + [] == Flatten(x);
    } else {
      var most, last := y[..|y| - 1], y[|y| - 1];
      FlattenBoth(x, most);
      assert (x + y)[..|x + y| - 1] == x + most;
      assert Flatten(x) + Flatten(most) + last == Flatten(x) + (Flatten(most) + last);
    }
  }
}
