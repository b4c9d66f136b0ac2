/** The pairing step of `fft_and_blocks_and_chunks` (wavProcessing.py lines
    110-129 and 171-177): every file's blocks are normalized, transformed and
    appended to ONE list that is never reset between files; the target list is
    that whole list shifted left by one with a zero block appended; both lists
    are then cut into 40-block examples.

    The per-sample normalization and the FFT are numeric collaborators, given
    as function values. The whole-signal transforms and plots of lines 131-163
    compute nothing that is returned and are not modelled. */
module Pairing {
  import opened SeqUtil
  import opened Blocking
  import opened Chunking

  /** The numeric collaborators, over sample type `S`, normalized type `F` and
      coefficient type `C`. */
  datatype Transform<!S, !F, C> = Transform(
    sampleZero: S,          // the value `np.zeros` pads a signal's last block with
    normalize: S -> F,      // `normalize_float32`, applied sample by sample
    fft: seq<F> -> seq<C>,  // the FFT applied to one normalized block
    coefZero: C)            // the value of the zero block appended to the targets

  /** One transformed block: normalize every sample, then apply the FFT. */
  function Spectrum<S, F, C>(t: Transform<S, F, C>, block: Block<S>): Block<C>
  {
    t.fft(MapSeq(t.normalize, block))
  }

  /** The transformed blocks of one file, in order. */
  function FileSpectra<S, F, C>(t: Transform<S, F, C>, signal: seq<S>): (r: seq<Block<C>>)
    ensures |r| == BlockCount(|signal|)
    ensures forall i :: 0 <= i < |r| ==> r[i] == Spectrum(t, SignalToBlocks(signal, t.sampleZero)[i])
  {
    var blocks := SignalToBlocks(signal, t.sampleZero);
    seq(|blocks|, i requires 0 <= i < |blocks| => Spectrum(t, blocks[i]))
  }

  /** Reference definition of the accumulated input list: every file's
      transformed blocks, file after file. */
  function AllSpectra<S, F, C>(t: Transform<S, F, C>, signals: seq<seq<S>>): seq<Block<C>>
    decreases |signals|
  {
    if |signals| == 0 then [] else FileSpectra(t, signals[0]) + AllSpectra(t, signals[1..])
  }

  /** The zero block appended to the target list (`np.zeros(blockSize)`). */
  function ZeroBlock<S, F, C>(t: Transform<S, F, C>): Block<C>
  {
    Zeros(BLOCK_SIZE, t.coefZero)
  }

  /** The two lists the file loop keeps between iterations. */
  datatype Accumulator<C> = Accumulator(fftBlocksInput: seq<Block<C>>, fftBlocksOutput: seq<Block<C>>)

  /** One iteration of the file loop: append this file's transformed blocks to
      the input list, then rebuild the target list from the WHOLE input list. */
  function AddFile<S, F, C>(t: Transform<S, F, C>, acc: Accumulator<C>, signal: seq<S>): Accumulator<C>
  {
    var inputBlocks := SignalToBlocks(signal, t.sampleZero);
    var blockSize := |inputBlocks[0]|;
    var fftBlocksInput := acc.fftBlocksInput + FileSpectra(t, signal);
    Accumulator(fftBlocksInput, fftBlocksInput[1..] + [Zeros(blockSize, t.coefZero)])
  }

  /** The file loop as a left fold over the signals. */
  function Accumulate<S, F, C>(t: Transform<S, F, C>, acc: Accumulator<C>, signals: seq<seq<S>>): Accumulator<C>
    decreases |signals|
  {
    if |signals| == 0 then acc else Accumulate(t, AddFile(t, acc, signals[0]), signals[1..])
  }

  /** Input and target examples, index for index. */
  datatype TrainingSet<C> = TrainingSet(chunksInput: seq<seq<Block<C>>>, chunksOutput: seq<seq<Block<C>>>)

  /** The two ways the source fails: with no files `fftBlocksInput[0]` is out of
      range (line 174); with fewer than 41 blocks `chunksInput[0]` is (line 175). */
  datatype PipelineError = NoBlocks | NoExamples

  datatype Result<T> = Success(value: T) | Failure(error: PipelineError)

  /** The accumulated input list is every file's transformed blocks in order:
      the fold never resets it between files. */
  lemma {:induction false} AccumulatedInputs<S, F, C>(t: Transform<S, F, C>, acc: Accumulator<C>, signals: seq<seq<S>>)
    ensures Accumulate(t, acc, signals).fftBlocksInput == acc.fftBlocksInput + AllSpectra(t, signals)
    decreases |signals|
  {
    if |signals| > 0 {
      var next := AddFile(t, acc, signals[0]);
      AccumulatedInputs(t, next, signals[1..]);
      assert next.fftBlocksInput + AllSpectra(t, signals[1..])
          == acc.fftBlocksInput + (FileSpectra(t, signals[0]) + AllSpectra(t, signals[1..]));
    }
  }

  /** After at least one file, the target list is the input list shifted left by
      one with a zero block appended; with no files both lists are untouched. */
  lemma {:induction false} AccumulatedTargets<S, F, C>(t: Transform<S, F, C>, acc: Accumulator<C>, signals: seq<seq<S>>)
    ensures var r := Accumulate(t, acc, signals);
      |signals| > 0 ==>
        && |r.fftBlocksInput| > 0
        && r.fftBlocksOutput == r.fftBlocksInput[1..] + [ZeroBlock(t)]
    ensures |signals| == 0 ==> Accumulate(t, acc, signals) == acc
    decreases |signals|
  {
    if |signals| > 0 {
      AccumulatedTargets(t, AddFile(t, acc, signals[0]), signals[1..]);
    }
  }

  /** Lines 112-129 and 171-177: accumulate, shift, chunk both lists. */
  function PairExamples<S, F, C>(t: Transform<S, F, C>, signals: seq<seq<S>>): (r: Result<TrainingSet<C>>)
    ensures r == Failure(NoBlocks) <==> |signals| == 0
    ensures r.Success? <==> |AllSpectra(t, signals)| > EXAMPLE_LEN
    ensures r.Success? ==>
      && |r.value.chunksInput| == |r.value.chunksOutput| == ExampleCount(|AllSpectra(t, signals)|)
      && (forall i :: 0 <= i < |r.value.chunksInput| ==> |r.value.chunksInput[i]| == EXAMPLE_LEN)
      && (forall i :: 0 <= i < |r.value.chunksOutput| ==> |r.value.chunksOutput[i]| == EXAMPLE_LEN)
  {
    var acc := Accumulate(t, Accumulator([], []), signals);
    AccumulatedInputs(t, Accumulator([], []), signals);
    AccumulatedTargets(t, Accumulator([], []), signals);
    var chunksInput := BlocksToExamples(acc.fftBlocksInput);
    var chunksOutput := BlocksToExamples(acc.fftBlocksOutput);
    if |acc.fftBlocksInput| == 0 then Failure(NoBlocks)
    else if |chunksInput| == 0 then Failure(NoExamples)
    else Success(TrainingSet(chunksInput, chunksOutput))
  }

  /** Every input example is 40 consecutive transformed blocks of the whole
      stream, and its target at each timestep is the NEXT block of the stream,
      which always exists: the appended zero block is never a target. */
  lemma TargetsAreNextBlocks<S, F, C>(t: Transform<S, F, C>, signals: seq<seq<S>>)
    ensures var r := PairExamples(t, signals);
      var stream := AllSpectra(t, signals);
      r.Success? ==>
        forall i, k :: 0 <= i < |r.value.chunksInput| && 0 <= k < EXAMPLE_LEN ==>
          && EXAMPLE_LEN * i + k + 1 < |stream|
          && r.value.chunksInput[i][k] == stream[EXAMPLE_LEN * i + k]
          && r.value.chunksOutput[i][k] == stream[EXAMPLE_LEN * i + k + 1]
  {
    var r := PairExamples(t, signals);
    var stream := AllSpectra(t, signals);
    var acc := Accumulate(t, Accumulator([], []), signals);
    AccumulatedInputs(t, Accumulator([], []), signals);
    AccumulatedTargets(t, Accumulator([], []), signals);
    if r.Success? {
      assert acc.fftBlocksInput == stream;
      ExampleWindows(acc.fftBlocksInput);
      ExampleWindows(acc.fftBlocksOutput);
      forall i, k | 0 <= i < |r.value.chunksInput| && 0 <= k < EXAMPLE_LEN
        ensures EXAMPLE_LEN * i + k + 1 < |stream|
        ensures r.value.chunksInput[i][k] == stream[EXAMPLE_LEN * i + k]
        ensures r.value.chunksOutput[i][k] == stream[EXAMPLE_LEN * i + k + 1]
      {
        assert r.value.chunksInput[i] == stream[EXAMPLE_LEN * i .. EXAMPLE_LEN * i + EXAMPLE_LEN];
        assert r.value.chunksOutput[i]
            == acc.fftBlocksOutput[EXAMPLE_LEN * i .. EXAMPLE_LEN * i + EXAMPLE_LEN];
      }
    }
  }

  /** Because the input list is never reset, the target of one file's last
      block is the next file's first transformed block, not the appended zero
      block. Every target but the last is the next block of the whole stream;
      the appended zero block occurs only after the last file. (A transformed
      block may itself be all zeros, for silent audio; that is a real block.) */
  lemma ShiftCrossesFiles<S, F, C>(t: Transform<S, F, C>, signals: seq<seq<S>>)
    requires |signals| >= 2
    ensures var out := Accumulate(t, Accumulator([], []), signals).fftBlocksOutput;
      var n := |FileSpectra(t, signals[0])|;
      && |out| == |AllSpectra(t, signals)|
      && n - 1 < |out|
      && out[n - 1] == FileSpectra(t, signals[1])[0]
      && out[|out| - 1] == ZeroBlock(t)
      && (forall p :: 0 <= p < |out| - 1 ==> out[p] == AllSpectra(t, signals)[p + 1])
  {
    var acc := Accumulate(t, Accumulator([], []), signals);
    AccumulatedInputs(t, Accumulator([], []), signals);
    AccumulatedTargets(t, Accumulator([], []), signals);
    var first := FileSpectra(t, signals[0]);
    var second := FileSpectra(t, signals[1]);
    assert AllSpectra(t, signals) == first + (second + AllSpectra(t, signals[2..]));
    assert acc.fftBlocksInput[|first|] == second[0];
  }

  /** When the FFT preserves length, every block of both example lists has the
      block size, so the result is a regular examples x 40 x 11025 array. */
  lemma ExampleShapes<S, F, C>(t: Transform<S, F, C>, signals: seq<seq<S>>)
    requires forall b :: |t.fft(b)| == |b|
    ensures var r := PairExamples(t, signals);
      r.Success? ==>
        && (forall i, k :: 0 <= i < |r.value.chunksInput| && 0 <= k < EXAMPLE_LEN ==>
              |r.value.chunksInput[i][k]| == BLOCK_SIZE)
        && (forall i, k :: 0 <= i < |r.value.chunksOutput| && 0 <= k < EXAMPLE_LEN ==>
              |r.value.chunksOutput[i][k]| == BLOCK_SIZE)
  {
    StreamShape(t, signals);
    TargetsAreNextBlocks(t, signals);
  }

  /** Helper: with a length-preserving FFT every transformed block has the
      block size. */
  lemma {:induction false} StreamShape<S, F, C>(t: Transform<S, F, C>, signals: seq<seq<S>>)
    requires forall b :: |t.fft(b)| == |b|
    ensures forall i :: 0 <= i < |AllSpectra(t, signals)| ==> |AllSpectra(t, signals)[i]| == BLOCK_SIZE
    decreases |signals|
  {
    if |signals| > 0 {
      StreamShape(t, signals[1..]);
      var first := FileSpectra(t, signals[0]);
      forall i | 0 <= i < |first|
        ensures |first[i]| == BLOCK_SIZE
      {
        var block := SignalToBlocks(signals[0], t.sampleZero)[i];
        assert |t.fft(MapSeq(t.normalize, block))| == |MapSeq(t.normalize, block)|;
      }
    }
  }

  /** The file loop, the per-block loop and the two chunking calls, step by step. */
  method PairExamplesLoop<S, F, C>(t: Transform<S, F, C>, signals: seq<seq<S>>) returns (r: Result<TrainingSet<C>>)
    ensures r == PairExamples(t, signals)
  {
    var fftBlocksInput: seq<Block<C>> := [];
    var fftBlocksOutput: seq<Block<C>> := [];
    var f := 0;
    while f < |signals|
      invariant f <= |signals|
      invariant Accumulate(t, Accumulator(fftBlocksInput, fftBlocksOutput), signals[f..])
             == Accumulate(t, Accumulator([], []), signals)
      decreases |signals| - f
    {
      var inputBlocks := SignalToBlocksLoop(signals[f], t.sampleZero);
      var blockSize := |inputBlocks[0]|;
      ghost var before := fftBlocksInput;
      var j := 0;
      while j < |inputBlocks|
        invariant j <= |inputBlocks|
        invariant fftBlocksInput == before + FileSpectra(t, signals[f])[..j]
        decreases |inputBlocks| - j
      {
        var block := MapSeq(t.normalize, inputBlocks[j]);
        fftBlocksInput := fftBlocksInput + [t.fft(block)];
        j := j + 1;
      }
      assert FileSpectra(t, signals[f])[..j] == FileSpectra(t, signals[f]);
      fftBlocksOutput := fftBlocksInput[1..] + [Zeros(blockSize, t.coefZero)];
      assert signals[f..][1..] == signals[f + 1..];
      f := f + 1;
    }
    var chunksInput := BlocksToExamplesLoop(fftBlocksInput);
    var chunksOutput := BlocksToExamplesLoop(fftBlocksOutput);
    if |fftBlocksInput| == 0 {
      r := Failure(NoBlocks);
    } else if |chunksInput| == 0 {
      r := Failure(NoExamples);
    } else {
      r := Success(TrainingSet(chunksInput, chunksOutput));
    }
  }
}
