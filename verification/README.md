# iLBC codec and SICSOPHONE control: a Dafny model

The project models the parts of SICSOPHONE that carry state from one step to the next: the
iLBC speech codec (30 ms frames of 240 samples, 50 bytes each), the measurement server's call
protocol, the event loop's timers, the receiver's sequence numbers and the in-place channel
conversion. Every routine of the source that changes things step by step is a method over the
same arrays or fields, proved against a function; what the source promises is proved about the
functions, for all inputs and over whole runs.

The main results, in the order of the codec:

* **Linear prediction** (`LevinsonDurbin`, `Autocorrelation`, `LagWindow`, `LagWindowTable`,
  `LpcAnalysis`, `LpcLoudness`). The in-place recursion solves the normal equations of every order;
  its error is `r[0]` times the product of `1 - k^2`. On the autocorrelation of any signal that is
  not silent, bare or under a lag window without negative forms, no intermediate error is zero and
  every reflection coefficient is below 1 in magnitude. The lag window of the codec is such a
  window, so the analysis never divides by zero, whatever the signal; and what it finds does not
  depend on loudness, above the threshold of silence.
* **Quantisers** (`Quantisers`). The split vector quantiser attains the minimum over the product
  codebook, and the decoder rebuilds exactly the vector it chose.
* **Adaptive codebook** (`Codebook`, `SearchSpec`, `CodebookSearch`, `StagedSearch`). Search and
  decoder build the same vector for every index by different arithmetic. The recursive energies
  are the direct ones. A stage finds the largest measure among all vectors it visits, and takes
  that much energy from its target. Whatever the signal, the index is one the decoder can have.
* **What is sent** (`SearchMeaning`, `CodebookMeaning`). The gains and the vector of the search are
  those a decoder makes of the indices, and the vector of a lag continues a signal of that period.
* **Start state** (`StartState`, `StartStateMeaning`). Scale and levels are the nearest ones, sample by
  sample in the weighted domain; the decoder's side is a function of indices and filter.
* **Closed loop** (`ResidualSpec`, `ResidualEncoding`, `ResidualDecoding`, `ResidualMeaning`). A frame's
  residual is defined once, by prediction from the recent past, forwards and then backwards. The
  encoder's local decoding and the decoder's `Decode`, with their shifted memories and reversed
  buffers, both compute it. In the frame, every subframe is predicted from the decoded samples
  beside it, and was searched for the residual at its place.
* **Bit stream** (`Packing`, `FrameBits`, `FrameLayout`, `IndexConversion`). Packing refines
  "append bits", unpacking "take bits"; the three interleaved classes lose nothing; 399 bits and
  one zero bit fill the packet; folded indices come back.
* **Lockstep** (`FrameMeaning`, `DecoderSpec`, `Decoder`, `Encoder`, `Lockstep`). For any number of
  frames, with the packet in between, the decoder has what the encoder believes it to have. Under
  losses: a packet that arrives resynchronises the remembered vector, and the next one is exact;
  the first one need not be: a conversion of frequencies to filters made for the purpose, not the
  codec's, shows that the residuals can differ.
* **Enhancer** (`Correlations`, `LagSearch`, `Enhancer`, `DecoderSpec`). The buffer and its repair after
  a loss; the periods found are those at which a signal repeats; buffer, periods and filters keep
  the same delay.
* **Concealment** (`ConcealmentSpec`, `Concealment`, `ConcealmentDecay`, `ConcealmentContinuation`,
  `NoiseSeeds`). The state over any run of good and lost frames; that a loss goes on with the pitch
  of the past; the decay of gain, peak and filter; the way back; the period of the noise.
* **Call protocol** (`CallSpec`, `CallNodes`, `CallProtocol`). One server, any number of clients,
  FIFO connections, any ids, any probes, any interleaving. In every run a client has at most one part
  in a test, with the address of the peer it was called with, reports are accepted once, and they are
  complete exactly when nobody is marked busy. A start is ignored exactly when it does not name its
  client, which costs that client for good; no start is, if and only if every call found its
  clients' ids in their entries. Only a probe with id 0 can bring about another call, if the client
  has not registered by then.
* **Timers** (`EventLoop`), **sequence numbers** (`SequenceNumbers`), **channels** (`Channels`).

`Constants`, `Reals`, `Sequences`, `Buffers`, `FrameFilters`, `FrameClassification` and
`LsfInterpolation` hold what several of these share.

## How the source is read

* `float` is `real`: rounding is not modelled. The square root in the 30 dB test is squared away.
* `(*pp)*(*pp++)` is a square, and the overlapping `memcpy(mem, mem+SUBL, ...)` is a move to the
  front.
* The conversion from line spectral frequencies to filters, the separation check, powers and
  logarithms of ten and the smoothing of one enhanced block are used as functions
  (`LsfInterpolation.Shared`), the conversion from filters to frequencies as one of the analysis
  (`LpcAnalysis.Analysis`). The two signal windows and the codebook of the frequencies are
  parameters.
* A pointer into a buffer is a buffer and a position; a whole-array `memcpy` of a field is an
  assignment to a field of type `seq`. The six filters of a frame are six vectors, not one array
  of 66.
* Products and powers have names (`Reals`), so that proofs need no nonlinear arithmetic.
* Clients of the call protocol send what the client program sends. Their ids are drawn at random
  from 100000 numbers (`utils/spc.c:533`), so they may be equal, and 0 is one of them. Probes are
  datagrams, so they may come at any time, any number of times, from any address, with any id.

Where code and comments differ, the code is modelled: a packet that wraps the 16-bit number is
reported as a gap although nothing is missing, and so is a repetition of the last packet, which
is not reported as a duplicate; the counter of lost packets compares the last number played with
itself, so that each gap lowers it by one; a busy client's recorded peer is cleared by a
registration sent before the client has read its start, be it before or after the call; a probe
with id 0, which a client whose id is 0 sends itself, can make another client that has not
registered idle, so that it can be called without its id; `doThePLC` records a gain that a good frame after a good one never set.

## Model

| member | source | states |
|---|---|---|
| `LevinsonDurbin.Levdurb` | coding/iLBC_1.1.0/helpfun.c:61-96 | for any order: `a` and `k` hold the coefficients and reflection coefficients of the recursion; with no zero intermediate error, `a[0] = 1`, all normal equations up to the order hold and the final error is `r[0]` times the product of `1 - k^2`; for `r[0] < EPS` the trivial filter |
| `LevinsonDurbin.ReflectInPlace` | coding/iLBC_1.1.0/helpfun.c:87-92 | the paired update from both ends, the shared middle element included, has the effect of the simultaneous update of all coefficients |
| `LevinsonDurbin.RaiseSolves` | coding/iLBC_1.1.0/helpfun.c:81-93 | raising a solution of the normal equations by the right reflection coefficient solves those of the next order, the error scaled by `1 - k^2` |
| `LevinsonDurbin.PredictIsCorrect` | coding/iLBC_1.1.0/helpfun.c:71-94 | at every order the recursion satisfies every normal equation and its error is the attenuated `r[0]`, as long as no intermediate error is zero |
| `Autocorrelation.Autocorr` | coding/iLBC_1.1.0/helpfun.c:22-38 | the autocorrelation of a signal at every lag up to the order |
| `Autocorrelation.ErrorIsResidualEnergy` | coding/iLBC_1.1.0/helpfun.c:61-96 | the error of any solution of the normal equations of an autocorrelation is the energy of its prediction residual |
| `Autocorrelation.FormIsEnergy` | coding/iLBC_1.1.0/helpfun.c:22-38 | the quadratic form of an autocorrelation is the energy of the filtered signal, for any taps |
| `Autocorrelation.DefiniteIsRegular` | coding/iLBC_1.1.0/helpfun.c:61-96 | on any sequence whose forms are positive, no error of the recursion is zero, all are positive and every reflection coefficient is below 1 in magnitude |
| `Autocorrelation.AutocorrelationIsRegular` | coding/iLBC_1.1.0/helpfun.c:61-96 | so it is on the autocorrelation of any signal that is not silent |
| `LagWindow.Window` | coding/iLBC_1.1.0/helpfun.c:44-55 | a signal or a sequence of lags under a window |
| `LagWindow.WindowedForm` | coding/iLBC_1.1.0/LPCencode.c:48-49 | the form of a windowed autocorrelation is the sum over all times of the window's form on what the taps meet |
| `LagWindow.WindowedIsRegular` | coding/iLBC_1.1.0/LPCencode.c:48-51 | what the codec gives the recursion, an autocorrelation under a lag window, is as safe, for every window that has no negative form |
| `LagWindow.RaisedIsSemidefinite` | coding/iLBC_1.1.0/LPCencode.c:49-49 | raising lag 0, as white noise does, keeps a window without negative forms |
| `Autocorrelation.AutocorrelationIsSemidefinite` | coding/iLBC_1.1.0/LPCencode.c:49-49 | a window that is itself an autocorrelation has none |
| `LagWindowTable.CosinesAreSemidefinite` | coding/iLBC_1.1.0/LPCencode.c:49-49 | the cosines of the multiples of any angle have none: the form is a sum of two squares |
| `LagWindowTable.NearIsSemidefinite` | coding/iLBC_1.1.0/LPCencode.c:49-49 | a sequence near one without negative forms has none, if lag 0 makes up for twice the difference at the others |
| `LagWindowTable.LagWinIsSemidefinite` | coding/iLBC_1.1.0/constants.c:349-353 | the lag window of the codec has no negative form |
| `LpcAnalysis.AnalysisIsSafe` | coding/iLBC_1.1.0/LPCencode.c:35-55 | whatever the signal and its window: a trivial filter for negligible energy, otherwise no zero error, a solution of the normal equations, and reflection coefficients below 1 in magnitude |
| `LpcAnalysis.BlockIsPredicted` | coding/iLBC_1.1.0/LPCencode.c:35-55 | the frequencies of a block are those of a filter that solves the normal equations of the windowed block, its lags windowed too, bandwidth expanded; or of the filter without taps |
| `LpcAnalysis.SimpleAnalysis` | coding/iLBC_1.1.0/LPCencode.c:24-58 | both vectors of a frame from the two windows on the block and the samples kept before it; the last samples are kept for the next frame |
| `LpcAnalysis.VectorsHaveTheirBlocks` | coding/iLBC_1.1.0/LPCencode.c:35-58 | the second vector of a frame is that of the new block alone; the first does not depend on its last samples |
| `LpcAnalysis.OnlyTheWindowIsSeen` | coding/iLBC_1.1.0/LPCencode.c:35-45 | of a block only what its window lets through matters |
| `LpcLoudness.PredictorStays` | coding/iLBC_1.1.0/helpfun.c:61-96 | lags louder by any factor have the same predictor and reflection coefficients, and an error louder by it |
| `LpcLoudness.LoudnessDoesNotMatter` | coding/iLBC_1.1.0/LPCencode.c:35-55 | the frequencies of a block are those of the block made louder or quieter, or turned over, as long as neither counts as silent |
| `Filters.AnaFilter` | coding/iLBC_1.1.0/anaFilter.c:20-65 | filters a block with the memory of the last samples before it and leaves the last samples of the block in the memory |
| `Filters.SyntFilter` | coding/iLBC_1.1.0/syntFilter.c:19-61 | turns excitation into signal in place, the taps reaching first into the block and then into the memory |
| `Filters.AllPoleFilter` | coding/iLBC_1.1.0/filter.c:19-41 | the in-place all-pole filter over a buffer whose preceding samples are its state |
| `Filters.AllZeroFilter` | coding/iLBC_1.1.0/filter.c:47-69 | the all-zero filter from one buffer into another, the preceding samples its state |
| `Filters.ZeroPoleFilter` | coding/iLBC_1.1.0/filter.c:75-93 | all-zero into the output, then all-pole in place: synthesis of the analysis |
| `Filters.SynthesisInvertsAnalysis` | coding/iLBC_1.1.0/syntFilter.c:19-61 | synthesis with a monic filter and the same memory recovers the analysed block, for any block and any coefficients |
| `Filters.AnalysisInvertsSynthesis` | coding/iLBC_1.1.0/anaFilter.c:20-65 | the other direction |
| `Filters.InversionNeedsMonicFilter` | coding/iLBC_1.1.0/syntFilter.c:19-61 | the two filters invert each other for all blocks if and only if the leading coefficient is 1 |
| `Filters.StreamInversion` | coding/iLBC_1.1.0/iLBC_encode.c:96-99 | over any stream of blocks at least as long as the memory, with new coefficients for each, synthesis recovers the input and both memories stay equal |
| `FrameFilters.AnalyseFrame` | coding/iLBC_1.1.0/iLBC_encode.c:94-99 | six subframes analysed with six filters, the memory carried from one to the next and on to the next frame |
| `FrameFilters.SynthesiseFrame` | coding/iLBC_1.1.0/iLBC_decode.c:492-499 | six subframes synthesised in place with six filters, the memory carried on |
| `FrameFilters.FrameInversion` | coding/iLBC_1.1.0/iLBC_encode.c:94-99 | synthesis of an analysed frame gives the frame back, subframe by subframe |
| `Packing.PackSplit` | coding/iLBC_1.1.0/packing.c:26-41 | the first bits of a value and the rest of it, together the value MSB first |
| `Packing.PackCombine` | coding/iLBC_1.1.0/packing.c:48-57 | appends the bits of a part to those of a value |
| `Packing.BitWriter.DoPack` | coding/iLBC_1.1.0/packing.c:63-110 | appends the bits of a value to the stream written so far, MSB first, for any width and start offset, across byte boundaries and without touching earlier bits or later bytes |
| `Packing.BitReader.Unpack` | coding/iLBC_1.1.0/packing.c:116-166 | takes that many bits from the stream, for any width and offset |
| `Packing.BitReader.Get` | coding/iLBC_1.1.0/packing.c:131-161 | one round of the loop: the bits left in the current byte, moved to where they belong in the value |
| `FrameBits.PackFrame` | coding/iLBC_1.1.0/iLBC_encode.c:340-439 | appends the three interleaved importance classes of a list of parameters |
| `FrameBits.UnpackFrame` | coding/iLBC_1.1.0/iLBC_decode.c:322-392 | collects every parameter from its three shares |
| `FrameBits.ReadWritten` | coding/iLBC_1.1.0/iLBC_decode.c:322-392 | for any parameters that fit any table of class widths, reading what was written gives every parameter back, whatever follows it |
| `FrameBits.WrittenRead` | coding/iLBC_1.1.0/iLBC_encode.c:340-439 | any stream that is long enough is what its parameters would be written as, and they fit their widths |
| `FrameLayout.FrameSize` | coding/iLBC_1.1.0/constants.c:29-51 | with the tables of the codec the parameters take 399 bits; with one more they fill 50 bytes |
| `FrameLayout.RangeOf` | coding/iLBC_1.1.0/constants.c:21-27 | parameters within the plain bit allocation fit the class widths |
| `FrameLayout.Pack` | coding/iLBC_1.1.0/iLBC_encode.c:335-442 | the packet: 50 bytes with the parameters and one zero bit |
| `FrameLayout.Unpack` | coding/iLBC_1.1.0/iLBC_decode.c:291-392 | the frame in a packet |
| `FrameLayout.PacketRoundTrip` | coding/iLBC_1.1.0/iLBC_decode.c:291-392 | the packet of a frame holds that frame |
| `FrameLayout.EveryPacketIsAFrame` | coding/iLBC_1.1.0/iLBC_encode.c:335-442 | 50 bytes with a zero last bit are the packet of exactly the frame read from them |
| `FrameLayout.ShareIsAt` | coding/iLBC_1.1.0/constants.c:29-51 | where every share of every parameter lies in the packet: 64 bits of the first class, 96 of the second, 239 of the third, each in the order of the parameters, most significant bits first |
| `Codebook.FilteredCBvecs` | coding/iLBC_1.1.0/createCB.c:24-52 | the whole memory filtered with zeros around it |
| `Codebook.CreateAugmentedVec` | coding/iLBC_1.1.0/createCB.c:167-202 | the interpolated vector of a lag: the last samples, cross-faded over five samples into the same again |
| `Codebook.GetCBvec` | coding/iLBC_1.1.0/getCBvec.c:21-168 | the decoder builds the codebook vector of every index of the layout: plain, interpolated, filtered, filtered and interpolated |
| `Codebook.GetInterpolated` | coding/iLBC_1.1.0/getCBvec.c:52-78 | the decoder builds the same interpolated vector by arithmetic on twice the lag |
| `Codebook.FilterStretch` | coding/iLBC_1.1.0/getCBvec.c:86-112 | filtering only the stretch needed gives the samples that filtering the whole memory gives |
| `Codebook.ExtractVector` | coding/iLBC_1.1.0/iCBSearch.c:389-426 | the search side takes the same codebook vector of the same index out of its buffers |
| `CodebookMeaning.LagContinues` | coding/iLBC_1.1.0/getCBvec.c:21-78 | the codebook vector of a lag, whole or short, is the continuation of any signal that ends with that period |
| `CodebookMeaning.SeamFades` | coding/iLBC_1.1.0/createCB.c:167-202 | in general a short lag goes over from one stretch to the other in five equal steps |
| `CodebookMeaning.ImpulseAnswer` | coding/iLBC_1.1.0/createCB.c:24-52 | the filtered memory answers a single sample, anywhere in the memory, with the taps in order, three samples late, cut off at its ends |
| `CodebookSearch.SearchLag` | coding/iLBC_1.1.0/iCBSearch.c:150-193 | a lag of the first section: its energy by the plus-in minus-out recursion at the first stage, read back at later ones, is that of the vector, and the running maximum advances by that vector |
| `CodebookSearch.AugmentedLag` | coding/iLBC_1.1.0/createCB.c:88-132 | the recursive energy and the cross product of a lag are those of the interpolated vector |
| `CodebookSearch.SearchAugmentedCB` | coding/iLBC_1.1.0/createCB.c:59-159 | the running maximum over the interpolated vectors of a range of lags, every energy slot holding the direct energy of its vector |
| `CodebookSearch.FilteredEnergies` | coding/iLBC_1.1.0/iCBSearch.c:290-308 | the recursion over the filtered memory fills the slots with the direct energies |
| `CodebookSearch.SearchFiltered` | coding/iLBC_1.1.0/iCBSearch.c:310-350 | the running maximum over the window of the filtered section; only slots that were written are read |
| `CodebookSearch.SearchStage` | coding/iLBC_1.1.0/iCBSearch.c:88-360 | a whole stage ends with the best of the vectors visited, computed from direct energies |
| `SearchSpec.WindowSlides` | coding/iLBC_1.1.0/iCBSearch.c:162-165 | the energy of a window one sample earlier is the energy plus the sample that comes in minus the one that goes out |
| `SearchSpec.VisitIsMaximum` | coding/iLBC_1.1.0/iCBSearch.c:141-145 | the running maximum is the start or the first visited vector of the largest measure among those that pass the gain bound |
| `SearchSpec.StageBestIsMaximum` | coding/iLBC_1.1.0/iCBSearch.c:138-193 | a stage finds the largest measure among all vectors it visits that pass the gain bound, if any passes |
| `SearchSpec.WindowHoldsBest` | coding/iLBC_1.1.0/iCBSearch.c:224-280 | the restricted window of the filtered section always contains the filtered counterpart of the best vector of the first section |
| `SearchSpec.VisitedAreCodebookVectors` | coding/iLBC_1.1.0/iCBSearch.c:147-360 | every vector visited is the codebook vector of its index |
| `SearchSpec.StageBestIsReachable` | coding/iLBC_1.1.0/iCBSearch.c:364-364 | whatever the signal, the index a stage returns is in one of the four parts of the layout its range reaches |
| `SearchMeaning.MeasureIsTaken` | coding/iLBC_1.1.0/iCBSearch.c:136-145 | taken out with its gain, a candidate lowers the energy of the target by its measure at least |
| `Correlations.NothingTakesMore` | coding/iLBC_1.1.0/iCBSearch.c:136-145 | no scaling of a vector leaves less of a target than its energy less the squared cross product over the energy of the vector |
| `SearchMeaning.MeasureIsNearlyThat` | coding/iLBC_1.1.0/iCBSearch.c:136-145 | the measure falls short of that only by what `EPS` adds to the energy |
| `SearchMeaning.StageTakesItsMeasure` | coding/iLBC_1.1.0/iCBSearch.c:138-193 | so does the vector that a whole stage finds |
| `SearchMeaning.GainNeedsNoClamp` | coding/iLBC_1.1.0/iCBSearch.c:366-377 | the gain a stage finds is never changed by the clamp before it is quantised: at the first stage it is not negative, at none too large |
| `StagedSearch.StageConserves` | coding/iLBC_1.1.0/iCBSearch.c:428-434 | what a stage adds to the accumulated vector it takes from the target |
| `StagedSearch.RunStage` | coding/iLBC_1.1.0/iCBSearch.c:88-426 | one stage: the best index, the gain quantised to the nearest level relative to the gain before, the vector of that index |
| `StagedSearch.RunStages` | coding/iLBC_1.1.0/iCBSearch.c:86-440 | three stages recorded faithfully; accumulated vector plus remaining target is the weighted target |
| `StagedSearch.AdjustGain` | coding/iLBC_1.1.0/iCBSearch.c:442-457 | the first gain moves up to a level that leaves less energy than the target had; no later one would do, unless the level is already twice the gain, which none it moved on from was |
| `StagedSearch.Weight` | coding/iLBC_1.1.0/iCBSearch.c:61-74 | memory and target are weighted together by the all-pole filter |
| `StagedSearch.ICBSearch` | coding/iLBC_1.1.0/iCBSearch.c:26-458 | the whole search on the weighted memory and target: stages, gains, adjustment, recorded faithfully; whatever the signal, every index is one its range reaches and every gain index is in its table |
| `StagedSearch.SearchStaysInLayout` | coding/iLBC_1.1.0/iCBSearch.c:364-387 | every index sent is one its range reaches, every gain index is in its table |
| `SearchMeaning.GainsAreDecoded` | coding/iLBC_1.1.0/iCBConstruct.c:76-84 | the gains the three stages subtracted with are those a decoder makes of the gain indices |
| `SearchMeaning.GainIsNearest` | coding/iLBC_1.1.0/iCBSearch.c:366-387 | every stage subtracts with the level nearest to the gain it found, on the scale of the gain before; the bound of the quantiser's search never acts |
| `SearchMeaning.TakenIsConstructed` | coding/iLBC_1.1.0/iCBSearch.c:428-434 | what they took from the weighted target is the vector a decoder builds of indices and gain indices |
| `SearchMeaning.AccumulatedIsConstructed` | coding/iLBC_1.1.0/iCBSearch.c:428-440 | the accumulated vector is the decoder's, before the first gain is adjusted |
| `SearchMeaning.AdjustedVectorIsQuieter` | coding/iLBC_1.1.0/iCBSearch.c:442-457 | when the adjustment moves the first gain and the first two gains can be scales, the decoder's vector is the accumulated one times the quotient of the levels, and has less energy than the weighted target |
| `Quantisers.Vq` | coding/iLBC_1.1.0/helpfun.c:145-178 | the first nearest vector of a codebook, or vector 0 when none is nearer than the initial bound |
| `Quantisers.SplitVQ` | coding/iLBC_1.1.0/helpfun.c:184-204 | each part quantised with its own codebook |
| `Quantisers.SplitIsOptimal` | coding/iLBC_1.1.0/helpfun.c:184-204 | for any splits and codebooks the result attains the minimum distance over the whole product codebook, when each part has a vector below the initial bound |
| `Quantisers.SimplelsfQ` | coding/iLBC_1.1.0/LPCencode.c:140-155 | both vectors are replaced by what their six indices stand for; indices in range |
| `Quantisers.SimplelsfDEQ` | coding/iLBC_1.1.0/LPCdecode.c:42-73 | rebuilds from the indices exactly the vectors that the encoder quantised to |
| `Quantisers.SortSq` | coding/iLBC_1.1.0/helpfun.c:210-236 | the nearest level of an increasing table, the lower one of two equally near |
| `Quantisers.GainQuant` | coding/iLBC_1.1.0/gainquant.c:22-66 | the first nearest level; the value returned is the one that dequantisation makes of the index |
| `Quantisers.GainLevelsAreEven` | coding/iLBC_1.1.0/constants.c:123-147 | the three gain tables are evenly spaced, in steps of 0.0375, of 0.15, and of thirds below 0 and quarters above |
| `Quantisers.FirstMinimumIsUnique` | coding/iLBC_1.1.0/helpfun.c:145-178 | what the minimum searches return is determined by the distances |
| `IndexConversion.IndexConvEnc` | coding/iLBC_1.1.0/iCBConstruct.c:23-38 | folds the second and third index in place and nothing else |
| `IndexConversion.IndexConvDec` | coding/iLBC_1.1.0/iCBConstruct.c:40-55 | unfolds them |
| `IndexConversion.FoldingSurvives` | coding/iLBC_1.1.0/iCBConstruct.c:23-55 | an index fits seven bits and is restored if and only if it is one that a stage with range 44 reaches |
| `IndexConversion.UnfoldingIsOnto` | coding/iLBC_1.1.0/iCBConstruct.c:40-55 | every seven bits unfold to a reachable index that folds back to them |
| `IndexConversion.ConversionRoundTrip` | coding/iLBC_1.1.0/iCBConstruct.c:23-55 | the conversion of a frame is undone exactly when both converted indices are reachable |
| `LsfInterpolation.DecoderInterpolateLSF` | coding/iLBC_1.1.0/LPCdecode.c:79-118 | the synthesis filters of the six subframes and the vector remembered |
| `LsfInterpolation.SimpleInterpolateLSF` | coding/iLBC_1.1.0/LPCencode.c:83-134 | synthesis filters from the quantised vectors, weighting filters from the unquantised ones, both vectors remembered |
| `LsfInterpolation.PastMattersOnce` | coding/iLBC_1.1.0/LPCdecode.c:94-112 | the remembered vector reaches the filter of the first subframe only |
| `LsfInterpolation.EqualSteps` | coding/iLBC_1.1.0/LPCdecode.c:94-112 | the vectors of subframes 1 to 4 go from the first to the second vector of the frame in equal steps and stay there; the first subframe lies halfway between the remembered vector and the first |
| `LsfInterpolation.BwExpand` | coding/iLBC_1.1.0/helpfun.c:122-139 | coefficient i is scaled by the i-th power of the factor |
| `LsfInterpolation.Interpolate` | coding/iLBC_1.1.0/helpfun.c:102-116 | the weighted mean of two vectors |
| `FrameClassification.FrameClassify` | coding/iLBC_1.1.0/FrameClassify.c:19-97 | the first pair of subframes with the largest weighted energy; the position is always 1 to 5 |
| `FrameClassification.ScoreIsSymmetric` | coding/iLBC_1.1.0/FrameClassify.c:39-82 | a frame read backwards scores the same at the mirrored pairs |
| `FrameClassification.EnergyCounts` | coding/iLBC_1.1.0/FrameClassify.c:39-82 | the weighted energies of a subframe are positive if and only if it has a sample other than zero |
| `FrameClassification.WeightsRise` | coding/iLBC_1.1.0/FrameClassify.c:26-37 | the weights rise in equal steps of a sixth from the edge of a pair to 1 |
| `FrameClassification.MiddleIsPreferred` | coding/iLBC_1.1.0/FrameClassify.c:26-97 | a frame that is as loud everywhere scores less the further a pair is from the middle |
| `StartState.StateConstructW` | coding/iLBC_1.1.0/StateConstructW.c:24-69 | the state that indices and filter stand for: scaled levels through the all-pass filter backwards, folded, written in place |
| `StartState.AbsQuantW` | coding/iLBC_1.1.0/StateSearchW.c:26-98 | each index is the level that leaves the rebuilt weighted signal nearest to the weighted target, given the levels before it; the filters change on the way |
| `StartState.StateSearchW` | coding/iLBC_1.1.0/StateSearchW.c:104-174 | the scale is the table level nearest to the logarithm of the peak of the turned signal, at least 10; the levels follow the signal on that scale; every index is in its table |
| `StartState.PalindromePasses` | coding/iLBC_1.1.0/filter.c:75-93 | a filter that reads the same both ways passes a start state unchanged |
| `StartState.FiltersMatter` | coding/iLBC_1.1.0/StateConstructW.c:43-68 | the same indices give different states under such a filter and one without poles, unless they repeat every ten samples round the block |
| `StartStateMeaning.ScaleIsUndone` | coding/iLBC_1.1.0/StateConstructW.c:43-52 | what the encoder scales down the decoder scales up again |
| `StartStateMeaning.LevelsAreNearest` | coding/iLBC_1.1.0/StateSearchW.c:26-98 | with flat weighting the levels a decoder scales up are the nearest of all to the turned signal |
| `StartStateMeaning.FiltersCancel` | coding/iLBC_1.1.0/StateConstructW.c:43-68 | the decoder's filter undoes the encoder's, for a filter that reads the same both ways and for one without poles |
| `ResidualDecoding.ICBConstruct` | coding/iLBC_1.1.0/iCBConstruct.c:61-101 | the sum of the three codebook vectors of the indices with the chain of dequantised gains, written in place |
| `ResidualDecoding.Advance` | coding/iLBC_1.1.0/iLBC_decode.c:195-200 | shifting the memory and appending the new subframe keeps it the recent past of the decoded signal |
| `ResidualDecoding.DecodeSubframes` | coding/iLBC_1.1.0/iLBC_decode.c:184-204 | the subframe loop extends the signal by prediction from its own recent past |
| `ResidualDecoding.DecodeStart` | coding/iLBC_1.1.0/iLBC_decode.c:121-164 | the adaptive part of the start block, after the state or mirrored before it |
| `ResidualDecoding.DecodeForward` | coding/iLBC_1.1.0/iLBC_decode.c:170-205 | the subframes after the start block |
| `ResidualDecoding.DecodeBackward` | coding/iLBC_1.1.0/iLBC_decode.c:207-253 | the subframes before it, predicted backwards and turned round |
| `ResidualDecoding.DecodeFrom` | coding/iLBC_1.1.0/iLBC_decode.c:80-254 | all 240 samples are those the parameters stand for, whatever the buffers held before |
| `ResidualSpec.RecentOfRecent` | coding/iLBC_1.1.0/iLBC_decode.c:195-200 | a shifted memory of n samples is as good as the whole past |
| `ResidualSpec.BlockInPlace` | coding/iLBC_1.1.0/iLBC_decode.c:101-120 | the start block is found unchanged at its place in the decoded frame |
| `ResidualMeaning.StartIsPredicted` | coding/iLBC_1.1.0/iLBC_decode.c:121-164 | in the decoded frame the adaptive part is the vector of its indices on the state beside it |
| `ResidualMeaning.EverySubframeIsPredicted` | coding/iLBC_1.1.0/iLBC_decode.c:170-253 | in the decoded frame every other subframe is the vector of its own indices on the decoded samples beside it: forwards after the start block, backwards before it |
| `ResidualEncoding.Search` | coding/iLBC_1.1.0/iLBC_encode.c:153-157 | indices and gains the search returns with a zero filter state are reachable and can be decoded |
| `ResidualEncoding.EncodeSubframes` | coding/iLBC_1.1.0/iLBC_encode.c:224-253 | the encoder's subframe loop rebuilds the same extension from the indices it chose, each by a search on the recent past of what is decoded so far |
| `ResidualEncoding.EncodeStart` | coding/iLBC_1.1.0/iLBC_encode.c:140-202 | the adaptive part of the start block, searched and rebuilt |
| `ResidualEncoding.EncodeForward` | coding/iLBC_1.1.0/iLBC_encode.c:208-254 | forward prediction in the closed loop |
| `ResidualEncoding.EncodeBackward` | coding/iLBC_1.1.0/iLBC_encode.c:257-329 | backward prediction in the closed loop |
| `ResidualEncoding.EncodeFrom` | coding/iLBC_1.1.0/iLBC_encode.c:140-330 | the residual the encoder rebuilds while it searches is the one that its indices and gains stand for, on all samples; every index and gain was found by a search for its part of the residual on the memory a decoder will have |
| `ResidualMeaning.StartIsSearched` | coding/iLBC_1.1.0/iLBC_encode.c:140-202 | the adaptive part was searched for the residual at its place, with the weighting filter of the subframe it lies in, on the state beside it |
| `ResidualMeaning.EverySubframeIsSearched` | coding/iLBC_1.1.0/iLBC_encode.c:208-321 | so was every other subframe, on the decoded samples beside it: on nothing that a decoder does not have, and nothing misplaced |
| `ResidualMeaning.SilenceStays` | coding/iLBC_1.1.0/iLBC_encode.c:250-250 | every search starts its weighting from rest |
| `FrameMeaning.InRangeIsDecodable` | coding/iLBC_1.1.0/iLBC_decode.c:394-414 | every index and gain a packet can hold, after index conversion, is inside its codebook and table |
| `FrameMeaning.FrameOfIsInRange` | coding/iLBC_1.1.0/iLBC_decode.c:291-392 | any 50 bytes hold parameters within their widths |
| `Decoder.DecodeResidual` | coding/iLBC_1.1.0/iLBC_decode.c:80-254 | the residual of a frame: start state, adaptive part, forward and backward prediction |
| `LagSearch.XCorrCoef` | coding/iLBC_1.1.0/enhancer.c:442-463 | the correlation coefficient of two blocks; the division never has a zero divisor |
| `Correlations.DotNeedsEnergy` | coding/iLBC_1.1.0/enhancer.c:457-459 | a nonzero correlation needs a block with energy |
| `LagSearch.FindLag` | coding/iLBC_1.1.0/iLBC_decode.c:476-490 | the first lag with the largest coefficient, in this search and both of the enhancer |
| `Correlations.CauchySchwarz` | coding/iLBC_1.1.0/enhancer.c:457-459 | the square of a cross product is at most the product of the energies |
| `Correlations.OnlyMultiplesMeetBound` | coding/iLBC_1.1.0/enhancer.c:457-459 | exactly when one block is a multiple of the other |
| `LagSearch.RepetitionIsBest` | coding/iLBC_1.1.0/enhancer.c:442-463 | the coefficient is at most the energy of the block, and all of it if and only if the other block is a positive multiple |
| `LagSearch.PeriodIsFound` | coding/iLBC_1.1.0/iLBC_decode.c:476-490 | if the block repeats at any of the lags, the lag found is the smallest at which it does |
| `Enhancer.DownSample` | coding/iLBC_1.1.0/filter.c:99-158 | every second sample of the filtered signal and at last the one two behind the end, the same sum with zeros there |
| `Enhancer.EvenSpacing` | coding/iLBC_1.1.0/filter.c:114-157 | these points are evenly spaced if and only if the number of samples is even |
| `Enhancer.Repair` | coding/iLBC_1.1.0/enhancer.c:526-545 | after a loss the last old block is written backwards from the frame and then from itself |
| `Enhancer.RepairIsPeriodic` | coding/iLBC_1.1.0/enhancer.c:495-547 | each repaired sample is the gain times the sample one lag later, for any lag; nothing else changes |
| `Enhancer.RepairIsQuiet` | coding/iLBC_1.1.0/enhancer.c:518-545 | no repaired sample is louder than the new frame |
| `Enhancer.GainAheadIsBest` | coding/iLBC_1.1.0/enhancer.c:509-527 | no gain from 0 to 1 leaves less of the first block than the one of the repair |
| `Enhancer.FindPeriods` | coding/iLBC_1.1.0/enhancer.c:549-585 | the periods of the three blocks, behind those kept; each from 20 to 118, and the last is returned |
| `Enhancer.PeriodsStayInRange` | coding/iLBC_1.1.0/enhancer.c:549-585 | all eight periods stay from 20 to 118 |
| `Enhancer.HalfRateIsCentred` | coding/iLBC_1.1.0/filter.c:99-158 | the low-pass filter is symmetric and output k is centred on sample 2 k of what is downsampled |
| `Enhancer.PeriodIsPitch` | coding/iLBC_1.1.0/enhancer.c:556-585 | if a block of the new frame repeats at an even lag from 20 to 118, up to a positive factor, the period found for it is such a lag of the half-rate signal, and no larger |
| `Enhancer.EnhancerInterface` | coding/iLBC_1.1.0/enhancer.c:469-596 | buffer, periods, enhanced frame and lag |
| `Enhancer.EnhancedReads` | coding/iLBC_1.1.0/enhancer.c:587-594 | apart from the smoothing, the enhanced frame is the buffer from one block before the new frame on |
| `Enhancer.EnhancedHasPeriods` | coding/iLBC_1.1.0/enhancer.c:587-594 | every block is smoothed with the periods kept for the buffer, its own at its place |
| `DecoderSpec.EnhancerIsInTime` | coding/iLBC_1.1.0/iLBC_decode.c:453-472 | after any two packets each enhanced subframe is synthesised with the filter of the subframe at its place in the buffer, two subframes late both |
| `DecoderSpec.EnhancementIsInTime` | coding/iLBC_1.1.0/iLBC_decode.c:453-472 | with a smoothing that copies, each subframe played is the subframe of the residual two subframes earlier, under the filter it was decoded with |
| `DecoderSpec.PeriodsAreInTime` | coding/iLBC_1.1.0/enhancer.c:549-585 | after any two packets the period kept for each of the last six blocks is the one found when the block was new, for the same samples |
| `DecoderSpec.LossLagIsLastPeriod` | coding/iLBC_1.1.0/iLBC_decode.c:457-458 | with the enhancer on, the lag handed to a loss is the period of the last block |
| `DecoderSpec.LossLagIsPeriod` | coding/iLBC_1.1.0/iLBC_decode.c:476-490 | with it off, the smallest lag at which the end of the residual repeats, if there is one |
| `Decoder.Instance.constructor` | coding/iLBC_1.1.0/iLBC_decode.c:33-74 | the whole initial state, which is a sound one |
| `Decoder.Instance.Conceal` | coding/iLBC_1.1.0/doCPLC.c:77-196 | a lost frame |
| `Decoder.Instance.Pass` | coding/iLBC_1.1.0/doCPLC.c:198-300 | a good frame, after a loss or not |
| `Decoder.Instance.DecodeGood` | coding/iLBC_1.1.0/iLBC_decode.c:398-424 | a good packet: filters, remembered vector, residual, concealment state |
| `Decoder.Instance.DecodeOrConceal` | coding/iLBC_1.1.0/iLBC_decode.c:291-451 | the frame in a good packet, or concealment for a lost one or one damaged in its start position |
| `Decoder.Instance.Render` | coding/iLBC_1.1.0/iLBC_decode.c:453-500 | enhancement with the filters two subframes late, or the lag search; then synthesis |
| `Decoder.Instance.Decode` | coding/iLBC_1.1.0/iLBC_decode.c:260-516 | one packet, received, lost or damaged in its start position, with the enhancer on or off: the whole new state and the speech |
| `Encoder.QuantiseLsf` | coding/iLBC_1.1.0/LPCencode.c:176-177 | the nearest indices, and the checked vectors a decoder will make of them |
| `Encoder.SearchFitsWire` | coding/iLBC_1.1.0/iLBC_encode.c:332-442 | parameters as the searches return them fit their widths, and the decoder unfolds the indices to what the search chose |
| `Encoder.PlaceState` | coding/iLBC_1.1.0/iLBC_encode.c:101-128 | where the start state lies and which side of it is coded first |
| `Encoder.CodeFrame` | coding/iLBC_1.1.0/iLBC_encode.c:101-442 | whatever the residual, a packet whose frame stands for exactly the residual rebuilt by the encoder; position and order chosen by energy, the start state by its quantiser, indices and gains by the closed loop |
| `Encoder.ShapedWhereItLies` | coding/iLBC_1.1.0/StateSearchW.c:49-81 | every sample of the start state is weighted with the filter of the subframe it lies in |
| `Encoder.Instance.Encode` | coding/iLBC_1.1.0/iLBC_encode.c:54-443 | for any block of samples the packet is faithful: it carries its frame, and filters, residual and remembered vector are those a decoder in the same state derives from it; the frame is the outcome of the analysis, quantisers and searches on the block |
| `Lockstep.SamePastSameFrame` | coding/iLBC_1.1.0/iLBC_decode.c:402-414 | in the same state a faithful packet gives the encoder's filters and residual |
| `Lockstep.AnyPastSameVector` | coding/iLBC_1.1.0/LPCdecode.c:114-116 | in any state it leaves the encoder's vector remembered |
| `Lockstep.ResidualShowsState` | coding/iLBC_1.1.0/iLBC_decode.c:116-118 | two filters give the same residual of a frame if and only if they give the same start state |
| `Lockstep.OtherPast` | coding/iLBC_1.1.0/iLBC_decode.c:116-118 | after a loss a packet decodes to the encoder's residual exactly when its start state comes out the same, and always when the start state is not in the first subframe |
| `Lockstep.LossCanBeHeard` | coding/iLBC_1.1.0/iLBC_decode.c:116-118 | and it can come out different: for any frame with its start state in the first subframe and levels that do not repeat every ten samples, and any two decoders that remember different vectors, some conversion of frequencies to filters makes the residuals differ |
| `Lockstep.RunGrows` | coding/iLBC_1.1.0/iLBC_encode.c:54-443 | packets made one after the other by the encoder form a run |
| `Lockstep.Resynchronised` | coding/iLBC_1.1.0/LPCdecode.c:114-116 | under any pattern of losses, every packet that arrives brings the remembered vectors together again |
| `Lockstep.LockstepUnderLoss` | coding/iLBC_1.1.0/iLBC_decode.c:402-414 | under any pattern of losses, a packet whose predecessor arrived, or whose start state is not in the first subframe, decodes to the encoder's residual |
| `Lockstep.SecondArrivalIsExact` | coding/iLBC_1.1.0/iLBC_decode.c:416-423 | from the second packet in a row on, the residual after concealment and all six filters are the encoder's |
| `Lockstep.LockstepWithoutLoss` | coding/iLBC_1.1.0/iLBC_decode.c:388-424 | for any number of frames without loss, remembered vectors, filters and residuals agree after every frame |
| `Concealment.CompCorr` | coding/iLBC_1.1.0/doCPLC.c:23-51 | correlation and gain at a lag |
| `Concealment.FindPitch` | coding/iLBC_1.1.0/doCPLC.c:86-102 | the first best of the seven lags around the last one, and its gain |
| `Concealment.Generate` | coding/iLBC_1.1.0/doCPLC.c:138-173 | the sample loop: noise and pitch repetition read from the past block or from samples already made, mixed, with their energy and the next seed; no read outside either block |
| `Concealment.ConcealResidual` | coding/iLBC_1.1.0/doCPLC.c:136-185 | pitch and noise, or noise alone when that would be below 30 dB; the gain recorded |
| `Concealment.RecoverResidual` | coding/iLBC_1.1.0/doCPLC.c:222-271 | three subframes of concealment faded into the decoded residual |
| `Concealment.ConcealLpc` | coding/iLBC_1.1.0/doCPLC.c:187-194 | the previous filter, bandwidth expanded |
| `ConcealmentSpec.StepKeepsSound` | coding/iLBC_1.1.0/doCPLC.c:58-300 | lag and gain recorded after a loss are in range, and the counter is positive exactly after a loss |
| `ConcealmentSpec.CounterIsStreak` | coding/iLBC_1.1.0/doCPLC.c:79-79 | over any run the loss counter is the number of losses since the last good frame |
| `ConcealmentSpec.RunIgnoresUnset` | coding/iLBC_1.1.0/doCPLC.c:291-294 | the gain a good frame leaves unset never reaches an output, over any run |
| `ConcealmentSpec.NoLossNoChange` | coding/iLBC_1.1.0/doCPLC.c:284-289 | without losses residuals pass unchanged |
| `ConcealmentDecay.LossScales` | coding/iLBC_1.1.0/doCPLC.c:136-185 | a lost frame scales the peak by at most its gain and records no larger gain |
| `ConcealmentDecay.BurstDecays` | coding/iLBC_1.1.0/doCPLC.c:77-185 | n losses after the last good frame: recorded gain at most 0.9^(n-1), peak at most 0.9^(n(n-1)/2) of the last good peak, for any lags and noise |
| `ConcealmentDecay.BurstExpandsFilter` | coding/iLBC_1.1.0/doCPLC.c:187-194 | and filter coefficient i is (0.99^i)^n times that of the last good frame |
| `ConcealmentDecay.RecoveryIsBounded` | coding/iLBC_1.1.0/doCPLC.c:201-275 | the first good frame is no louder than its sources, its second half is the decoded residual, and all of it when the gain is low |
| `ConcealmentDecay.SecondGoodFrameIsDecoded` | coding/iLBC_1.1.0/doCPLC.c:284-289 | the second good frame in a row is not touched |
| `ConcealmentContinuation.PitchGoesOn` | coding/iLBC_1.1.0/doCPLC.c:138-173 | every concealed sample is the gain times the one a lag before, but for the share of the noise, exactly 1 less 0.95 times the gain; so it strays from the pitch by that share of twice the peak at most |
| `ConcealmentContinuation.LossContinuesPitch` | coding/iLBC_1.1.0/doCPLC.c:138-173 | so a lost frame that is not quiet continues the past residual with its pitch, at the lag and gain it records |
| `ConcealmentContinuation.LossFollowsEcho` | coding/iLBC_1.1.0/doCPLC.c:86-102 | if the past ends with a multiple of what was one of the seven lags before, the first loss takes the smallest such lag and the factor, 1 at most, as its gain |
| `ConcealmentContinuation.EchoCorrelates` | coding/iLBC_1.1.0/doCPLC.c:23-51 | the correlation is at most the energy of the end of the past, and all of it exactly at such a lag |
| `ConcealmentContinuation.QuietLossIsNoise` | coding/iLBC_1.1.0/doCPLC.c:175-185 | a lost frame that would be quiet is made of samples from 50 to 119 before, at the lag the next seed gives; the gain recorded is 0, also after further losses |
| `ConcealmentContinuation.QuietMeans` | coding/iLBC_1.1.0/doCPLC.c:177-177 | quiet is what has less energy than a frame that is 30 throughout |
| `ConcealmentContinuation.RecoveryMovesToDecoded` | coding/iLBC_1.1.0/doCPLC.c:248-266 | the first good frame goes from what the concealment would have been to the decoded residual in equal steps |
| `NoiseSeeds.SeedReturns` | coding/iLBC_1.1.0/doCPLC.c:143-145 | a seed comes back after exactly the multiples of 2^31 steps: the generator has its full period |
| `NoiseSeeds.SeedsDiffer` | coding/iLBC_1.1.0/doCPLC.c:143-145 | so within 2^31 steps no two noise samples have the same seed |
| `NoiseSeeds.NoiseGoesOn` | coding/iLBC_1.1.0/doCPLC.c:138-146 | the noise of a further loss, and of the recovery, goes on with the next seed |
| `NoiseSeeds.NoiseGoesOnAfterRecovery` | coding/iLBC_1.1.0/doCPLC.c:222-228 | so does that of a loss after a recovery, which used 120 seeds or none |
| `CallNodes.Server.ConnectInput` | utils/sps.c:726-733 | a new entry at the head of the list: every client is found one place on, id 0 finds the new entry; the event of the whole system, seen from the server |
| `CallNodes.Server.ClientInput` | utils/sps.c:551-688 | a registration, with or without a public address, or a report changes its entry, a farewell or the end of the connection removes it, a message with another id does nothing; a client's message is the system's event |
| `CallNodes.Server.UdpInput` | utils/sps.c:787-802 | a probe sets the public address of the first entry with its id and ends the initial state; it is the system's event |
| `CallNodes.Server.StartCalls` | utils/sps.c:315-351 | two different clients are paired, told so and marked busy, with a test id of their own, exactly when both are idle and both sends succeed; it is the system's event, counter and messages included; after a failing send only the number is used up |
| `CallNodes.ClientNode.SpsWrapper` | utils/spc.c:347-408 | connecting if that succeeds, then the same registration on the connection and as a probe; an error in connecting or sending ends the client |
| `CallNodes.ClientNode.ServerInput` | utils/spc.c:132-195 | a start for this client is taken when it is connected and in no test, the end of the connection starts it anew, an exit message with its id ends it |
| `CallNodes.ClientNode.SendDataWrapper` | utils/spc_send.c:133-193 | the sender closes when the duration has passed or no echo has come in time, and reports afterwards |
| `CallNodes.ClientNode.RcvTimeout` | utils/spc_rcv.c:35-51 | the receiver reports when its time is over |
| `CallSpec.IdsAdvance` | utils/sps.c:330-336 | the 32-bit test id follows the count of tests |
| `CallSpec.OthersAreIgnored` | utils/sps.c:672-688 | an entry listens to its own client only, once its id is known |
| `CallSpec.RegisteredUntilFarewell` | utils/sps.c:551-688 | a client that registers with an address is in the list with id and address, and otherwise as it was; its farewell removes that entry and no other |
| `CallSpec.AddressIsKept` | utils/sps.c:551-688 | a registration without an address, and a report, leave the one that is known |
| `CallSpec.WhenTimeIsOver` | utils/spc_send.c:160-162 | a test with echoes ends when its duration has passed; a sender at most one packet late that hears nothing gives up after four seconds, as whole seconds are compared |
| `CallSpec.LateSenderIsAwaited` | utils/spc_send.c:160-162 | without echoes a sender is not given up before it has sent packets for three seconds, but for three packets at most |
| `CallSpec.SenderReportsOnce` | utils/spc_send.c:139-172 | over any number of ticks the sender reports once, at the tick after the first at which its time was over |
| `CallSpec.RegistrationTells` | utils/spc.c:279-292 | a registration says busy exactly when the client has a part in a test |
| `CallProtocol.StartIsTaken` | utils/spc.c:159-185 | a client with a start under way is connected, in no test, and marked busy in that role; it runs the test if and only if the start names it |
| `CallProtocol.ReadingIsOrderly` | utils/sps.c:583-595 | a report that is read is its client's one part in a test and makes it idle |
| `CallProtocol.StepKeepsInvariant` | utils/sps.c:301-367 | every possible event keeps it that a busy client has at most one start under way, test or report under way, in the role it is marked with, that others have none, that every part is of a committed test, and that busy clients and accepted reports are two for every test |
| `CallProtocol.RunKeepsInvariant` | utils/sps.c:301-367 | so does every run, with any number of clients, any ids, any probes and any interleaving |
| `CallProtocol.IdleIsAvailable` | utils/sps.c:335-335 | in every run an idle client has a public address, and nothing of a test is anywhere |
| `CallProtocol.AtMostOneReport` | utils/sps.c:583-595 | in every run the server accepts at most one report of each kind for a test id, up to 2^32 tests, and only for tests it committed |
| `CallProtocol.TestIdsAreUnique` | utils/sps.c:336-336 | the parts of the tests have different ids if and only if there were at most 2^32 tests |
| `CallProtocol.AllTestsReported` | utils/sps.c:583-595 | in every run every committed test has both its reports if and only if no client is marked busy |
| `CallProtocol.StartsAreTaken` | utils/spc.c:159-185 | in every run a client that reads a start was waiting for it, and ignores it if and only if it does not name the client |
| `CallProtocol.StartsIgnored` | utils/spc.c:159-185 | in every run the starts ignored are exactly the clients left busy with nothing under way, and together with those still under way they are the starts that calls sent without naming their client |
| `CallProtocol.NoStartIsIgnored` | utils/sps.c:335-351 | no start has been or will be ignored if and only if every call found its clients' ids in their entries |
| `CallProtocol.TestsAreConserved` | utils/sps.c:335-351 | the parts of all tests are there, under way, being run or reported, if and only if no start was ignored |
| `CallProtocol.NamedProbesNameClients` | utils/sps.c:787-801 | as long as probes name ids other than 0, every call names its clients |
| `CallProtocol.MisnamedCallLosesClient` | utils/spc.c:159-163 | a call of a client whose id the server does not have leaves it busy without a part in any test, once it has read the start |
| `CallProtocol.ProbeWithoutIdLosesClient` | utils/sps.c:787-801 | a probe with id 0 makes the first client that has not registered idle, and a call before it registers then loses it |
| `CallProtocol.LostForever` | utils/sps.c:583-595 | such a client stays busy, whatever happens afterwards |
| `CallProtocol.PeerWhileBusy` | utils/sps.c:557-561 | while a client is busy its recorded peer is that of the call if and only if the server has read no registration that says it is not busy; otherwise it is 0 |
| `CallProtocol.PeerForgottenBefore` | utils/sps.c:560-561 | any two idle clients can come to that: one registers shortly before it is called |
| `CallProtocol.PeerForgottenAfter` | utils/sps.c:560-561 | or after the call and before it has read the start |
| `CallProtocol.PeerOnlyWhileBusy` | utils/sps.c:583-595 | in every run a peer is recorded only while its client is busy |
| `CallProtocol.CallIsMutual` | utils/sps.c:337-350 | a call tells each of its two clients the other's public address, and records the other's id |
| `CallProtocol.TestsComeFromCalls` | utils/sps.c:229-257 | in every run, a start under way, and a test that a client is running, comes from one of the calls so far, with its role, its test and the address its peer had at that time |
| `EventLoop.Lists.RegTimeout` | src/sphone_eventloop.c:87-114 | a timer is inserted before the first strictly later one |
| `EventLoop.Lists.Unreg` | src/sphone_eventloop.c:166-202 | the first match is removed from each list; failure exactly when there is none |
| `EventLoop.UnregUndoesReg` | src/sphone_eventloop.c:87-202 | unregistering a timer just registered gives the list back, if no other has its callback and argument |
| `EventLoop.OthersStay` | src/sphone_eventloop.c:166-202 | no timer with another callback or another argument goes |
| `EventLoop.Lists.Dispatch` | src/sphone_eventloop.c:283-286 | of an ordered list, the timer taken off fires before all that remain, which stay ordered |
| `EventLoop.RunIsConsistent` | src/sphone_eventloop.c:87-202 | over any run the list is ordered by deadline and registration, and registered = pending + fired + unregistered as multisets |
| `EventLoop.FiredIsMinimum` | src/sphone_eventloop.c:283-297 | a timer that fires is a minimum of those pending |
| `EventLoop.SameDeadlineInOrder` | src/sphone_eventloop.c:104-111 | timers with equal deadlines fire in the order registered, over the whole run |
| `SequenceNumbers.Receiver.UpdateSeq` | src/sphone_rcv.c:57-105 | classification, cycle count and bad number after a packet |
| `SequenceNumbers.Receiver.ReceiveAndPlayout` | src/sphone_rcv.c:250-325 | numbers, cycles and losses after a packet, depending on how far it gets |
| `SequenceNumbers.NoneIsRejected` | src/sphone_rcv.c:57-105 | when every packet is less than 3000 ahead of the last played, none is bad, a duplicate or a reset; the one that wraps is a gap |
| `SequenceNumbers.LatePackets` | src/sphone_rcv.c:71-100 | the last packet again is a gap, one less than 100 packets late a duplicate, a later one bad, unless it follows on the last bad one |
| `SequenceNumbers.RestartTakesTwo` | src/sphone_rcv.c:83-96 | of the packets that jump, the one that follows on the bad one is taken for a restart and every other is bad |
| `SequenceNumbers.CyclesMoveInGaps` | src/sphone_rcv.c:71-82 | a cycle is counted exactly at a gap to a smaller number, and by nothing else |
| `SequenceNumbers.OffsetIs` | src/sphone_rcv.c:270-323 | the unwrapped number differs from the true count by the initial cycles and one cycle for every packet that started a cycle and was not played |
| `SequenceNumbers.OffsetIsConstant` | src/sphone_rcv.c:250-323 | the offset is constant across any number of wraps if and only if every packet that starts a cycle, seen from the last one played, is played |
| `SequenceNumbers.AllPlayedNoDrift` | src/sphone_rcv.c:250-323 | it is when all packets are played |
| `SequenceNumbers.WrapIsCountedTwice` | src/sphone_rcv.c:259-262 | it is not when the packet that starts a cycle has no payload: the next one counts the cycle again |
| `SequenceNumbers.LossCounterIs` | src/sphone_rcv.c:268-270 | without errors every gap takes one off the 32-bit counter of lost packets, however many it lost |
| `SequenceNumbers.LossCounterIsRight` | src/sphone_rcv.c:268-270 | the counter is the number of packets missed if and only if no packet was played after a gap |
| `SequenceNumbers.CyclesFitTheirField` | src/sphone_rcv.c:79-79 | the 32-bit field holds the cycles exactly below 2^15 counted wraps |
| `Channels.CodingExpand` | coding/sphone_coding.c:429-441 | in place, every sample repeated, although the buffer is overwritten from its end; bytes behind untouched |
| `Channels.CodingReduce` | coding/sphone_coding.c:411-423 | in place, the first of every group of samples |
| `Channels.ReduceUndoesExpand` | coding/sphone_coding.c:411-441 | for any factor and sample width, reducing what was expanded gives the samples back |

## Left out

- Floating-point rounding: the codec's equalities are proved over the reals; encoder and decoder
  run the same operations on the same numbers in the routines where the equality matters.
- The numerics of `a2lsf`, `lsf2a`, `LSF_check`, `pow` and `log10`: functions about which nothing is
  assumed but that a power of ten is positive.
- Lockstep.LossCanBeHeard: shows that some conversion makes the difference, not which frames differ
  under the conversion of the codec.
- Enhancer.EnhancerInterface: the smoothing of one block (`getsseq`, `refiner`, `smath`) is a function
  of buffer, periods and position.
- Decoder.Instance.Decode: modes other than 0 and 1, for which the source decodes nothing and
  leaves its residual uninitialised.
- FrameBits.PackFrame: works on one array with all parameters in stream order, where the source
  has an array per kind of parameter.
- CodebookSearch.SearchStage: the unrestricted search compiled in when `CB_RESRANGE` is -1, which
  it is not.
- Encoder.Instance.Encode: the copy of not yet decoded samples into the reversed buffer before
  backward prediction, which is overwritten before it is read.
- SearchMeaning.AccumulatedIsConstructed: holds before the first gain is adjusted; what the adjustment
  does to the decoder's vector is proved for gains that are large enough to be scales themselves.
- StartStateMeaning.FiltersCancel: shown for two kinds of filter; for others the source's circular
  all-pass and its mirror image cancel only nearly.
- CallProtocol.StepKeepsInvariant: one connection per client; client timeouts, deregistration,
  reconnecting and exit messages are not events, so what a reconnect leaves behind is not
  modelled; a failing send ends the server and with it the run.
- CallNodes.Server.ClientInput: exit messages, after which the server is gone, and the count of missed
  registrations.
- CallNodes.ClientNode.SendDataWrapper: the data packets it sends.
- EventLoop.Lists.Dispatch: waiting, descriptors becoming readable and the callbacks themselves;
  what callbacks do to the timers is part of the run.
- SequenceNumbers.Receiver.ReceiveAndPlayout: the timestamps, and the sources of packets that are
  dropped before their number is looked at.
- Sockets, files, signals, command lines, audio devices, `sip/`, G.711, RTP and RTCP headers, the
  playout buffer: input, output, or finite tables.
