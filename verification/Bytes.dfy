/** Bytes, and the few facts about sequences that the codec loops share. */
module Bytes {
  type Byte = b: int | 0 <= b < 0x100

  function Flatten<T>(parts: seq<seq<T>>): seq<T> {
    if parts == [] then [] else parts[0] + Flatten(parts[1..])
  }

  lemma {:induction false} FlattenAppend<T>(parts: seq<seq<T>>, part: seq<T>)
    ensures Flatten(parts + [part]) == Flatten(parts) + part
  {
    if parts == [] {
      assert parts + [part] == [part];
    } else {
      assert (parts + [part])[1..] == parts[1..] + [part];
      FlattenAppend(parts[1..], part);
    }
  }

  /** What a loop has produced, `out`, grows by the `piece` its remaining work begins with. */
  lemma Produce<T>(goal: seq<T>, out: seq<T>, todo: seq<T>, piece: seq<T>, todo': seq<T>)
    requires goal == out + todo && todo == piece + todo'
    ensures goal == (out + piece) + todo'
  {}

  lemma Assoc<T>(a: seq<T>, b: seq<T>, c: seq<T>)
    ensures a + (b + c) == (a + b) + c
  {}

  lemma DropDrop<T>(s: seq<T>, i: nat, n: nat)
    requires i + n <= |s|
    ensures s[i..][n..] == s[i + n..]
  {}
}
