/** Audio delivered as a sequence of blocks: the signal they make together, and its length. */
module Blocks {

  /** All blocks, in order, as one signal (`np.concatenate`). */
  function Concat(blocks: seq<seq<real>>): seq<real>
    decreases |blocks|
  {
    if blocks == [] then [] else blocks[0] + Concat(blocks[1..])
  }

  /** The number of samples in all blocks. */
  function TotalLength(blocks: seq<seq<real>>): nat
    decreases |blocks|
  {
    if blocks == [] then 0 else |blocks[0]| + TotalLength(blocks[1..])
  }

  lemma {:induction false} ConcatLength(blocks: seq<seq<real>>)
    ensures |Concat(blocks)| == TotalLength(blocks)
    decreases |blocks|
  {
    if blocks != [] {
      ConcatLength(blocks[1..]);
    }
  }

  /** Concatenation distributes over appending lists of blocks. */
  lemma {:induction false} ConcatAppend(a: seq<seq<real>>, b: seq<seq<real>>)
    ensures Concat(a + b) == Concat(a) + Concat(b)
    ensures TotalLength(a + b) == TotalLength(a) + TotalLength(b)
    decreases |a|
  {
    if a == [] {
      assert a + b == b;
    } else {
      assert (a + b)[1..] == a[1..] + b;
      ConcatAppend(a[1..], b);
    }
  }

  lemma ConcatOne(x: seq<real>)
    ensures Concat([x]) == x && TotalLength([x]) == |x|
  {
    assert [x][1..] == [];
  }
}
