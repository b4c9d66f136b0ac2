/** `signal_to_blocks` (wavProcessing.py lines 64-78) cuts a
    sample stream into blocks of 11025 samples and zero-pads the last one.

    The loop guard is `index + blockSize < len(signal)`, a strict comparison,
    so the remainder handed to the padding branch has between 1 and 11025
    samples (0 only for an empty signal). A signal whose length is a positive
    multiple of 11025 therefore ends in a full real block and gets no extra
    block made only of padding. */
module Blocking {
  import opened SeqUtil

  /** Samples per block (`blockSize`). */
  const BLOCK_SIZE: nat := 11025

  type Block<T> = seq<T>

  /** Number of blocks the source produces for `len` samples:
      `max(1, ceil(len / 11025))`. */
  function BlockCount(len: nat): nat
  {
    Max(1, CeilDiv(len, BLOCK_SIZE))
  }

  /** Sample `k` of the signal extended on the right by zeros forever. */
  function PaddedAt<T>(signal: seq<T>, k: nat, zero: T): T
  {
    if k < |signal| then signal[k] else zero
  }

  /** `signal_to_blocks`: while more than one block of samples remains past the
      current offset, emit the next full block; then emit the remainder padded
      with `zero` up to BLOCK_SIZE. */
  function SignalToBlocks<T>(signal: seq<T>, zero: T): (blocks: seq<Block<T>>)
    ensures |blocks| == BlockCount(|signal|)
    ensures forall i :: 0 <= i < |blocks| ==> |blocks[i]| == BLOCK_SIZE
    decreases |signal|
  {
    if BLOCK_SIZE < |signal| then
      [signal[..BLOCK_SIZE]] + SignalToBlocks(signal[BLOCK_SIZE..], zero)
    else
      [signal + Zeros(BLOCK_SIZE - |signal|, zero)]
  }

  /** Block `i` holds samples `i*11025 .. i*11025+11025` of the signal, with
      zero wherever that range runs past the signal's end. */
  lemma {:induction false} BlockContents<T>(signal: seq<T>, zero: T)
    ensures forall i, j :: 0 <= i < |SignalToBlocks(signal, zero)| && 0 <= j < BLOCK_SIZE ==>
      SignalToBlocks(signal, zero)[i][j] == PaddedAt(signal, i * BLOCK_SIZE + j, zero)
    decreases |signal|
  {
    var blocks := SignalToBlocks(signal, zero);
    if BLOCK_SIZE < |signal| {
      var rest := signal[BLOCK_SIZE..];
      BlockContents(rest, zero);
      forall i, j | 0 <= i < |blocks| && 0 <= j < BLOCK_SIZE
        ensures blocks[i][j] == PaddedAt(signal, i * BLOCK_SIZE + j, zero)
      {
        if i > 0 {
          assert blocks[i] == SignalToBlocks(rest, zero)[i - 1];
          assert PaddedAt(rest, (i - 1) * BLOCK_SIZE + j, zero)
              == PaddedAt(signal, i * BLOCK_SIZE + j, zero);
        }
      }
    }
  }

  /** Round trip: the concatenated blocks start with the whole signal, are
      zero after it, and the padding is shorter than one block unless the
      signal is empty (then it is exactly one block of padding). */
  lemma {:induction false} BlocksRoundTrip<T>(signal: seq<T>, zero: T)
    ensures var flat := Concat(SignalToBlocks(signal, zero));
      && |flat| == BLOCK_SIZE * |SignalToBlocks(signal, zero)|
      && |signal| <= |flat|
      && flat[..|signal|] == signal
      && (forall k :: |signal| <= k < |flat| ==> flat[k] == zero)
      && (|signal| == 0 <==> |flat| - |signal| == BLOCK_SIZE)
      && |flat| - |signal| <= BLOCK_SIZE
    decreases |signal|
  {
    var blocks := SignalToBlocks(signal, zero);
    var flat := Concat(blocks);
    ConcatUniformLength(blocks, BLOCK_SIZE);
    if BLOCK_SIZE < |signal| {
      var rest := signal[BLOCK_SIZE..];
      BlocksRoundTrip(rest, zero);
      var flatRest := Concat(SignalToBlocks(rest, zero));
      assert blocks[1..] == SignalToBlocks(rest, zero);
      assert flat == signal[..BLOCK_SIZE] + flatRest;
      assert flat[..|signal|] == signal[..BLOCK_SIZE] + flatRest[..|rest|];
      assert signal == signal[..BLOCK_SIZE] + rest;
    } else {
      assert flat == signal + Zeros(BLOCK_SIZE - |signal|, zero) + [];
      assert flat[..|signal|] == signal;
    }
  }

  /** For `k >= 1` blocks' worth of samples the source yields exactly `k`
      blocks, the last being the final 11025 real samples with no padding. */
  lemma ExactMultipleHasNoPaddingBlock<T>(signal: seq<T>, zero: T, k: nat)
    requires k >= 1 && |signal| == k * BLOCK_SIZE
    ensures var blocks := SignalToBlocks(signal, zero);
      && |blocks| == k
      && blocks[k - 1] == signal[|signal| - BLOCK_SIZE..]
  {
    var blocks := SignalToBlocks(signal, zero);
    assert CeilDiv(|signal|, BLOCK_SIZE) == k;
    assert |blocks| == k;
    BlockContents(signal, zero);
    var last := signal[|signal| - BLOCK_SIZE..];
    forall j | 0 <= j < BLOCK_SIZE
      ensures blocks[k - 1][j] == last[j]
    {
      var i := k - 1;
      assert 0 <= i < |blocks|;
      assert blocks[i][j] == PaddedAt(signal, i * BLOCK_SIZE + j, zero);
      assert i * BLOCK_SIZE + j == |signal| - BLOCK_SIZE + j;
    }
  }

  /** The `while` loop of `signal_to_blocks`, step by step. */
  method SignalToBlocksLoop<T>(signal: seq<T>, zero: T) returns (blocks: seq<Block<T>>)
    ensures blocks == SignalToBlocks(signal, zero)
  {
    var index := 0;
    blocks := [];
    while index + BLOCK_SIZE < |signal|
      invariant index <= |signal|
      invariant blocks + SignalToBlocks(signal[index..], zero) == SignalToBlocks(signal, zero)
      decreases |signal| - index
    {
      assert signal[index..][BLOCK_SIZE..] == signal[index + BLOCK_SIZE..];
      assert signal[index..][..BLOCK_SIZE] == signal[index..index + BLOCK_SIZE];
      assert SignalToBlocks(signal[index..], zero)
          == [signal[index..index + BLOCK_SIZE]] + SignalToBlocks(signal[index + BLOCK_SIZE..], zero);
      blocks := blocks + [signal[index..index + BLOCK_SIZE]];
      index := index + BLOCK_SIZE;
    }
    var appendedZeros := Zeros(BLOCK_SIZE - (|signal| - index), zero);
    var lastBlock := signal[index..|signal|] + appendedZeros;
    assert signal[index..|signal|] == signal[index..];
    assert SignalToBlocks(signal[index..], zero) == [lastBlock];
    blocks := blocks + [lastBlock];
  }
}
