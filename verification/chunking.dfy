/** `blocks_to_examples` (wavProcessing.py lines 82-95) cuts a
    block list into non-overlapping training examples of 40 blocks.

    The loop guard is `index + blocksPerExample < len(blocks)`, a strict
    comparison: a window is taken only when at least one block lies past it.
    So a list of `n` blocks yields `max(0, ceil(n / 40) - 1)` examples and at
    least one trailing block is always dropped; 80 blocks yield one example. */
module Chunking {
  import opened SeqUtil

  /** Blocks per training example (`blocksPerExample`). */
  const EXAMPLE_LEN: nat := 40

  /** Number of examples the source produces for `n` blocks. */
  function ExampleCount(n: nat): nat
  {
    Max(0, CeilDiv(n, EXAMPLE_LEN) - 1)
  }

  /** `blocks_to_examples`: take the next 40 blocks while strictly more than 40
      remain; whatever is left at the end is dropped. */
  function BlocksToExamples<T>(blocks: seq<T>): (examples: seq<seq<T>>)
    ensures |examples| == ExampleCount(|blocks|)
    ensures forall i :: 0 <= i < |examples| ==> |examples[i]| == EXAMPLE_LEN
    decreases |blocks|
  {
    if EXAMPLE_LEN < |blocks| then
      [blocks[..EXAMPLE_LEN]] + BlocksToExamples(blocks[EXAMPLE_LEN..])
    else
      []
  }

  /** Example `i` is exactly `blocks[40*i .. 40*i+40]`, and that window ends
      strictly before the end of the list. */
  lemma {:induction false} ExampleWindows<T>(blocks: seq<T>)
    ensures forall i :: 0 <= i < |BlocksToExamples(blocks)| ==>
      && EXAMPLE_LEN * i + EXAMPLE_LEN < |blocks|
      && BlocksToExamples(blocks)[i] == blocks[EXAMPLE_LEN * i .. EXAMPLE_LEN * i + EXAMPLE_LEN]
    decreases |blocks|
  {
    var examples := BlocksToExamples(blocks);
    if EXAMPLE_LEN < |blocks| {
      var rest := blocks[EXAMPLE_LEN..];
      ExampleWindows(rest);
      forall i | 0 <= i < |examples|
        ensures EXAMPLE_LEN * i + EXAMPLE_LEN < |blocks|
        ensures examples[i] == blocks[EXAMPLE_LEN * i .. EXAMPLE_LEN * i + EXAMPLE_LEN]
      {
        if i > 0 {
          assert examples[i] == BlocksToExamples(rest)[i - 1];
          assert rest[EXAMPLE_LEN * (i - 1) .. EXAMPLE_LEN * (i - 1) + EXAMPLE_LEN]
              == blocks[EXAMPLE_LEN * i .. EXAMPLE_LEN * i + EXAMPLE_LEN];
        }
      }
    }
  }

  /** The examples, laid end to end, are a prefix of the block list: in order,
      contiguous and non-overlapping. The part dropped is never empty for a
      non-empty list and never longer than one example. */
  lemma {:induction false} ExamplesTilePrefix<T>(blocks: seq<T>)
    ensures var examples := BlocksToExamples(blocks);
      && Concat(examples) == blocks[..EXAMPLE_LEN * |examples|]
      && (|blocks| > 0 ==> EXAMPLE_LEN * |examples| < |blocks|)
      && |blocks| <= EXAMPLE_LEN * |examples| + EXAMPLE_LEN
    decreases |blocks|
  {
    var examples := BlocksToExamples(blocks);
    if EXAMPLE_LEN < |blocks| {
      var rest := blocks[EXAMPLE_LEN..];
      ExamplesTilePrefix(rest);
      assert examples[1..] == BlocksToExamples(rest);
      assert Concat(examples) == blocks[..EXAMPLE_LEN] + rest[..EXAMPLE_LEN * (|examples| - 1)];
      assert blocks[..EXAMPLE_LEN * |examples|]
          == blocks[..EXAMPLE_LEN] + rest[..EXAMPLE_LEN * (|examples| - 1)];
    }
  }

  /** A list of exactly `k >= 1` examples' worth of blocks yields only `k - 1`
      examples: the last full window is dropped. */
  lemma ExactMultipleDropsLastWindow<T>(blocks: seq<T>, k: nat)
    requires k >= 1 && |blocks| == k * EXAMPLE_LEN
    ensures |BlocksToExamples(blocks)| == k - 1
    ensures Concat(BlocksToExamples(blocks)) == blocks[..|blocks| - EXAMPLE_LEN]
  {
    assert CeilDiv(|blocks|, EXAMPLE_LEN) == k;
    ExamplesTilePrefix(blocks);
  }

  /** The `while` loop of `blocks_to_examples`, step by step. */
  method BlocksToExamplesLoop<T>(blocks: seq<T>) returns (trainingExamples: seq<seq<T>>)
    ensures trainingExamples == BlocksToExamples(blocks)
  {
    var index := 0;
    trainingExamples := [];
    while index + EXAMPLE_LEN < |blocks|
      invariant index <= |blocks|
      invariant trainingExamples + BlocksToExamples(blocks[index..]) == BlocksToExamples(blocks)
      decreases |blocks| - index
    {
      assert blocks[index..][EXAMPLE_LEN..] == blocks[index + EXAMPLE_LEN..];
      assert blocks[index..][..EXAMPLE_LEN] == blocks[index..index + EXAMPLE_LEN];
      assert BlocksToExamples(blocks[index..])
          == [blocks[index..index + EXAMPLE_LEN]] + BlocksToExamples(blocks[index + EXAMPLE_LEN..]);
      trainingExamples := trainingExamples + [blocks[index..index + EXAMPLE_LEN]];
      index := index + EXAMPLE_LEN;
    }
    assert BlocksToExamples(blocks[index..]) == [];
  }
}
