/** Byte buffers as the session handles them: Node `Buffer`s become sequences of
    bytes, a `null` buffer becomes `None`. */
module Bytes {

  newtype byte = x: int | 0 <= x < 256

  datatype Option<T> = None | Some(value: T)

  /** The bytes a possibly-null buffer holds. */
  function Contents(b: Option<seq<byte>>): seq<byte>
  {
    match b
    case None => []
    case Some(s) => s
  }

  /** `expandAndCopy`: a null buffer yields the new chunk itself; otherwise a fresh
      buffer of the combined length holding the old bytes, then the new ones. */
  function ExpandAndCopy(prev: Option<seq<byte>>, newer: seq<byte>): (r: seq<byte>)
    ensures prev.None? ==> r == newer
    ensures |r| == |Contents(prev)| + |newer|
    ensures forall i :: 0 <= i < |Contents(prev)| ==> r[i] == Contents(prev)[i]
    ensures forall j :: 0 <= j < |newer| ==> r[|Contents(prev)| + j] == newer[j]
  {
    match prev
    case None => newer
    case Some(s) => s + newer
  }

  /** Appending two chunks one after the other is the same as appending their concatenation. */
  lemma ExpandTwice(prev: Option<seq<byte>>, c1: seq<byte>, c2: seq<byte>)
    ensures ExpandAndCopy(Some(ExpandAndCopy(prev, c1)), c2) == ExpandAndCopy(prev, c1 + c2)
    ensures ExpandAndCopy(prev, c1) == Contents(prev) + c1
  {
    var r := ExpandAndCopy(prev, c1);
    assert r == Contents(prev) + c1;
    assert Contents(prev) + c1 + c2 == Contents(prev) + (c1 + c2);
  }

  /** The byte stream made of a sequence of chunks, in order. */
  function Flatten(chunks: seq<seq<byte>>): seq<byte>
  {
    if chunks == [] then [] else chunks[0] + Flatten(chunks[1..])
  }

  lemma FlattenSingle(c: seq<byte>)
    ensures Flatten([c]) == c
  {
    assert [c][1..] == [];
  }

  lemma {:induction false} FlattenAppend(a: seq<seq<byte>>, b: seq<seq<byte>>)
    ensures Flatten(a + b) == Flatten(a) + Flatten(b)
  {
    if a == [] {
      assert a + b == b;
    } else {
      assert (a + b)[1..] == a[1..] + b;
      FlattenAppend(a[1..], b);
    }
  }

  /** `Buffer.readUInt16BE`: two bytes, most significant first. */
  function BigEndian16(hi: byte, lo: byte): (r: nat)
    ensures r < 0x1_0000
    ensures r / 256 == hi as int && r % 256 == lo as int
  {
    hi as int * 256 + lo as int
  }

  /** The two bytes of a port number in network order. */
  function EncodePort(port: nat): (r: seq<byte>)
    requires port < 0x1_0000
    ensures |r| == 2 && BigEndian16(r[0], r[1]) == port
  {
    [(port / 256) as byte, (port % 256) as byte]
  }
}
