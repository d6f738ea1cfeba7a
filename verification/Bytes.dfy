/** Byte strings: concatenation of chunks, and the zero padding of a fixed-size C buffer. */
module Bytes {

  type Byte = b: int | 0 <= b < 256

  /** The size of the stack buffers that both server loops read into. */
  const BUFFER_SIZE: nat := 1024

  function Flatten(chunks: seq<seq<Byte>>): (r: seq<Byte>) {
    if chunks == [] then []
    else Flatten(chunks[..|chunks| - 1]) + chunks[|chunks| - 1]
  }

  lemma FlattenSnoc(chunks: seq<seq<Byte>>, c: seq<Byte>)
    ensures Flatten(chunks + [c]) == Flatten(chunks) + c
  {
    assert (chunks + [c])[..|chunks|] == chunks;
  }

  function Zeros(n: nat): (r: seq<Byte>)
    ensures |r| == n
    ensures forall i :: 0 <= i < n ==> r[i] == 0
  {
    seq(n, i => 0)
  }

  /** What a zeroed buffer of BUFFER_SIZE bytes holds once `c` is copied to its start. */
  function Pad(c: seq<Byte>): (r: seq<Byte>)
    requires |c| <= BUFFER_SIZE
    ensures |r| == BUFFER_SIZE
    ensures r[..|c|] == c && forall i :: |c| <= i < BUFFER_SIZE ==> r[i] == 0
  {
    c + Zeros(BUFFER_SIZE - |c|)
  }

  // ---------------------------------------------------------------- without the zero bytes

  function NonZero(s: seq<Byte>): (r: seq<Byte>) {
    if s == [] then []
    else NonZero(s[..|s| - 1]) + if s[|s| - 1] != 0 then [s[|s| - 1]] else []
  }

  predicate NulFree(s: seq<Byte>) { 0 !in s }

  lemma {:induction false} NonZeroConcat(a: seq<Byte>, b: seq<Byte>)
    ensures NonZero(a + b) == NonZero(a) + NonZero(b)
    decreases |b|
  {
    if b == [] {
      assert a + b == a;
    } else {
      var b' := b[..|b| - 1];
      NonZeroConcat(a, b');
      assert (a + b)[..|a + b| - 1] == a + b';
    }
  }

  lemma {:induction false} NonZeroOfZeros(s: seq<Byte>)
    requires forall i :: 0 <= i < |s| ==> s[i] == 0
    ensures NonZero(s) == []
  {
    if s != [] {
      NonZeroOfZeros(s[..|s| - 1]);
    }
  }

  lemma {:induction false} NonZeroOfNulFree(s: seq<Byte>)
    requires NulFree(s)
    ensures NonZero(s) == s
  {
    if s != [] {
      NonZeroOfNulFree(s[..|s| - 1]);
      assert s == s[..|s| - 1] + [s[|s| - 1]];
    }
  }

  lemma NonZeroOfPad(c: seq<Byte>)
    requires |c| <= BUFFER_SIZE
    ensures NonZero(Pad(c)) == NonZero(c)
  {
    NonZeroConcat(c, Zeros(BUFFER_SIZE - |c|));
    NonZeroOfZeros(Zeros(BUFFER_SIZE - |c|));
  }
}
