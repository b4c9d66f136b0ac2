# wav-processing: blocking, chunking and target pairing

A Dafny model of the deterministic index logic in `wavProcessing.py` that
turns WAV sample streams into (input, target) training pairs for a sequence
model:

- **Blocking** (`signal_to_blocks`): a signal is cut into blocks of 11025
  samples; the last block is the remainder padded with zeros.
- **Chunking** (`blocks_to_examples`): a block list is cut into
  non-overlapping examples of 40 consecutive blocks; trailing blocks are
  dropped.
- **Pairing** (`fft_and_blocks_and_chunks`): every file's blocks are
  normalized, transformed and appended to one list that is never reset
  between files. The target list is that list shifted left by one with a zero
  block appended. Both lists are then chunked.

Everything is generic over the sample type `S`, the normalized type `F` and
the coefficient type `C`. The per-sample normalization (`normalize_float32`)
and the FFT are function values held in a `Transform` record, together with
the two zero values (padding sample and zero coefficient). Nothing is
assumed about them, except in `Pairing.ExampleShapes`, which assumes that the
FFT preserves length.

Files and modules:

- `sequtil.dfy`, module `SeqUtil`: `Zeros`, `Concat`, `MapSeq`, `CeilDiv`, `Max`.
- `blocking.dfy`, module `Blocking`: `SignalToBlocks`, a recursive definition
  with the count and block size in its contract. `SignalToBlocksLoop` is the
  source's `while` loop, proved equal to it.
- `chunking.dfy`, module `Chunking`: `BlocksToExamples` and the loop
  `BlocksToExamplesLoop`.
- `pairing.dfy`, module `Pairing`: the file loop as a left fold
  (`Accumulate`), with an independent reference definition of the input
  stream (`AllSpectra`, a right-nested concatenation of each file's
  transformed blocks). `PairExamples` is the whole step. `PairExamplesLoop`
  mirrors the nested loops.

Both loops in the code use a strict `<` in their guard, and the model follows
the code:

- `signal_to_blocks` yields `max(1, ceil(len / 11025))` blocks. A signal of
  exactly `2 * 11025` samples gives 2 blocks, not 3. No extra block made only
  of padding is added after a signal whose length is an exact multiple. Only
  an empty signal yields a block made only of padding; a block of real samples
  may of course hold zeros too (silent audio).
- `blocks_to_examples` yields `max(0, ceil(N / 40) - 1)` examples, not
  `floor(N / 40)`. 80 blocks give one example, and at least one trailing block
  is always dropped.

The code crashes with an index error at line 174 when there are no files, and
at line 175 when there are fewer than 41 blocks in all. The model returns
`Failure(NoBlocks)` and `Failure(NoExamples)` in those cases.

## Model

| member | source | states |
|---|---|---|
| `Blocking.SignalToBlocks` | wavProcessing.py:64-78 | every block has exactly 11025 samples, and there are `max(1, ceil(len/11025))` of them, so there is always at least one |
| `Blocking.BlockContents` | wavProcessing.py:69-74 | sample `j` of block `i` is signal sample `11025*i + j` when that index is inside the signal, and zero past its end |
| `Blocking.BlocksRoundTrip` | wavProcessing.py:69-74 | the concatenated blocks begin with the whole signal and are zero after it; the padding is shorter than one block exactly when the signal is non-empty, and an empty signal gives one block made only of padding |
| `Blocking.ExactMultipleHasNoPaddingBlock` | wavProcessing.py:69-74 | for a signal of `k*11025` samples with `k >= 1` there are exactly `k` blocks, and the last one is the final 11025 real samples with no padding |
| `Blocking.SignalToBlocksLoop` | wavProcessing.py:64-78 | the `while` loop with its slice-and-advance steps and the padded remainder computes exactly the recursive blocking |
| `Chunking.BlocksToExamples` | wavProcessing.py:82-95 | every example has exactly 40 blocks, and there are `max(0, ceil(N/40) - 1)` of them |
| `Chunking.ExampleWindows` | wavProcessing.py:87-89 | example `i` is exactly `blocks[40*i .. 40*i+40]`, and it ends strictly before index N |
| `Chunking.ExamplesTilePrefix` | wavProcessing.py:87-89 | the examples laid end to end are a prefix of the block list, so they are in order, contiguous and non-overlapping; for N >= 1, between 1 and 40 trailing blocks are dropped |
| `Chunking.ExactMultipleDropsLastWindow` | wavProcessing.py:87-89 | `40*k` blocks with `k >= 1` give `k-1` examples (80 blocks give 1), and these cover all blocks except the last 40 |
| `Chunking.BlocksToExamplesLoop` | wavProcessing.py:82-95 | the `while` loop computes exactly the recursive chunking |
| `Pairing.AccumulatedInputs` | wavProcessing.py:112-126 | the file loop's input list is every file's transformed blocks, file after file, with nothing reset between files |
| `Pairing.AccumulatedTargets` | wavProcessing.py:128-129 | after at least one file, the target list is the whole input list shifted left by one with a zero block appended, and it has the same length; with no files both lists stay as they were |
| `Pairing.PairExamples` | wavProcessing.py:171-177 | fails with `NoBlocks` exactly when there are no files; succeeds exactly when the stream has more than 40 blocks; on success the input and target example lists have equal length `max(0, ceil(N/40) - 1)` and hold 40-block examples |
| `Pairing.TargetsAreNextBlocks` | wavProcessing.py:171-172 | input example `i` at timestep `t` is stream block `40*i+t`, and its target is stream block `40*i+t+1`; that block always exists, so the appended zero block is never used as a target |
| `Pairing.ShiftCrossesFiles` | wavProcessing.py:112-129 | with two or more files, the target list has the stream's length; the target of the first file's last block is the second file's first transformed block; every target but the last is the next block of the whole stream, and the last is the appended zero block |
| `Pairing.ExampleShapes` | wavProcessing.py:122-129 | if the FFT preserves length, every block of every input and target example has 11025 coefficients |
| `Pairing.PairExamplesLoop` | wavProcessing.py:110-129 | the file loop, the per-block normalize-and-transform loop, the overwrite of the target list and the chunking compute exactly `PairExamples` |

## Left out

- File and directory I/O: `read_wav_file`, `write_wav_file`, `get_audio_from_dir` and `np.save` are thin wrappers over scipy and os. The pipeline takes the decoded sample streams as a list of signals instead.
- Plotting and display-only computations: `plot_wav_file`, `plot_fft`, and the whole-signal and zero-padded FFTs with their plots at lines 131-163. Their values are not part of the returned data.
- The display code of lines 131-163 aborts the whole run for some inputs, and the model does not reproduce that abort. An empty signal fails at line 132, because an FFT of 0 points raises. A file shorter than 44100 samples fails at line 150, which plots the 44100 points of `freqRange` (line 139) against the shorter `fftSignal[:44100]`. For such inputs `PairExamples` returns `Success` or `Failure(NoExamples)` where the source raises.
- The FFT (line 126) is a foreign numeric call. It is the function-valued field `Transform.fft`, with no properties assumed except length preservation in `ExampleShapes`.
- `normalize_float32` (lines 55-60) does a float32 conversion and divides by 32767.0. This is floating-point arithmetic, modelled as an arbitrary element-wise map `Transform.normalize`.
- The dataset standardization in `process_audio_for_rnn` (lines 192-198): mean, standard deviation, the 1e-8 clamp and broadcasting. It is floating-point statistics over numpy arrays.
- `print` calls (lines 76, 119, 165, 174-175), apart from the two index errors at lines 174-175, which are modelled as `Failure` results.
- `testMain.py`: a script that only lists a directory and calls the pipeline.
- Signals are mono: each signal is a one-dimensional sequence of samples. For a multi-channel file `wav.read` returns a two-dimensional array, and line 73 raises when it concatenates a two-dimensional slice with the one-dimensional `np.zeros`. The model does not represent multi-channel input or that failure.
- The sample type is whatever the file's own dtype is (16-bit integers for 16-bit PCM files); the padding and target zero blocks are float64. The model abstracts all of these as type parameters with a chosen zero value, so dtype promotion is not modelled.
