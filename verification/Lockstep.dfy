/**
 Encoder and decoder over whole runs: what the encoder believes the decoder to have is what
 the decoder has, frame after frame, and after losses again from the next packet on.
 */
module Lockstep {
  import opened Constants
  import opened DecoderSpec
  import opened Encoder
  import opened FrameFilters
  import opened FrameLayout
  import opened FrameMeaning
  import opened LsfInterpolation
  import opened Sequences
  import opened StartState
  import C = ConcealmentSpec
  import Quantisers
  import R = ResidualSpec

  // ---------- One packet ----------

  /** The frame in a faithful packet is the frame that was sent. */
  lemma FaithfulArrives(sh: Shared, table: seq<real>, past: seq<real>, s: Sent)
    requires Faithful(sh, table, past, s)
    ensures |s.bytes| == NO_OF_BYTES && FrameOf(s.bytes) == s.frame && Usable(Arrived(s.bytes))
  {
    hide InRange, FrameOf, LsfVectors, SubframeFilters, ResidualOf;
    PacketRoundTrip(s.bytes, s.frame);
  }

  /** Received in the same state, a faithful packet gives exactly what the encoder computed. */
  lemma SamePastSameFrame(sh: Shared, table: seq<real>, past: seq<real>, s: Sent)
    requires Faithful(sh, table, past, s)
    ensures |s.bytes| == NO_OF_BYTES && GoodStart(FrameOf(s.bytes))
    ensures PacketFilters(sh, table, past, s.bytes) == s.filters
    ensures PacketResidual(sh, table, past, s.bytes) == s.residual
  {
    hide InRange, FrameOf, LsfVectors, SubframeFilters, ResidualOf;
    FaithfulArrives(sh, table, past, s);
  }

  /** Received in any state at all, it leaves the decoder with the encoder's vector. */
  lemma AnyPastSameVector(sh: Shared, table: seq<real>, past: seq<real>, s: Sent, d: State)
    requires Faithful(sh, table, past, s) && Ready(d)
    ensures IsPacket(Arrived(s.bytes)) && LsfAfter(sh, table, d, Arrived(s.bytes)) == s.lsf
  {
    hide InRange, FrameOf, LsfVectors, SubframeFilters, ResidualOf;
    FaithfulArrives(sh, table, past, s);
  }

  // ---------- A packet after a loss ----------

  /** The residual tells the start states apart: it is the same exactly when the start state is. */
  lemma ResidualShowsState(sh: Shared, f: Frame, filter: seq<real>, other: seq<real>)
    requires InRange(f) && GoodStart(f) && |filter| == |other| == LPC_FILTERORDER + 1
    ensures ResidualOf(sh, f, filter) == ResidualOf(sh, f, other) <==> StateIn(sh, f, filter) == StateIn(sh, f, other)
  {
    hide InRange, IndexConversion.UnfoldedAll, R.AllConstructible, R.Constructible, R.Decoded, R.StartBlock, StateIn, Sub;
    InRangeIsDecodable(f);
    var x, y := StateIn(sh, f, filter), StateIn(sh, f, other);
    DecodedShowsState(x, y, f.stateFirst == 1, f.extraCbIndex, f.extraGainIndex, f.start, IndexConversion.UnfoldedAll(f.cbIndex),
                      f.gainIndex);
  }

  lemma DecodedShowsState(x: seq<real>, y: seq<real>, first: bool, extraIndex: seq<nat>, extraGain: seq<nat>, start: nat,
                          cb: seq<nat>, gain: seq<nat>)
    requires |x| == |y| == STATE_SHORT_LEN && 1 <= start <= 5 && R.Decodable(extraIndex, extraGain, cb, gain)
    ensures (R.Decoded(R.StartBlock(x, first, extraIndex, extraGain), start, cb, gain)
             == R.Decoded(R.StartBlock(y, first, extraIndex, extraGain), start, cb, gain)) <==> x == y
  {
    hide R.AllConstructible, R.Constructible, R.Decoded, R.StartBlock, Sub;
    R.BlockInPlace(R.StartBlock(x, first, extraIndex, extraGain), start, cb, gain);
    R.BlockInPlace(R.StartBlock(y, first, extraIndex, extraGain), start, cb, gain);
    StateInBlock(x, first, extraIndex, extraGain);
    StateInBlock(y, first, extraIndex, extraGain);
  }

  lemma StateInBlock(state: seq<real>, first: bool, index: seq<nat>, gain: seq<nat>)
    requires |state| == STATE_SHORT_LEN && R.Constructible(index, gain, ST_MEML, DIFF)
    ensures Sub(R.StartBlock(state, first, index, gain), if first then 0 else DIFF, STATE_SHORT_LEN) == state
  {
    hide R.Constructed;
  }

  /** Under the filters a decoder has, the start state comes out as under those the encoder had. */
  ghost predicate StateSurvives(sh: Shared, f: Frame, filters: seq<seq<real>>, sent: seq<seq<real>>)
    requires InRange(f) && GoodStart(f) && AreFrameFilters(filters) && AreFrameFilters(sent)
  {
    StateIn(sh, f, filters[f.start - 1]) == StateIn(sh, f, sent[f.start - 1])
  }

  /**
   A faithful packet received by a decoder that remembers something else, as after a loss: the
   residual is the encoder's exactly when the start state comes out the same, and that is
   always so unless the start state lies in the first subframe.
   */
  lemma OtherPast(sh: Shared, table: seq<real>, past: seq<real>, other: seq<real>, s: Sent)
    requires Faithful(sh, table, past, s) && |other| == LPC_FILTERORDER
    ensures |s.bytes| == NO_OF_BYTES && GoodStart(FrameOf(s.bytes)) && AreFrameFilters(s.filters)
    ensures forall i :: 1 <= i < NSUB ==> PacketFilters(sh, table, other, s.bytes)[i] == s.filters[i]
    ensures PacketResidual(sh, table, other, s.bytes) == s.residual
            <==> StateSurvives(sh, s.frame, PacketFilters(sh, table, other, s.bytes), s.filters)
    ensures s.frame.start >= 2 ==> PacketResidual(sh, table, other, s.bytes) == s.residual
  {
    hide InRange, FrameOf, LsfVectors, SubframeFilters, ResidualOf, StateIn;
    FaithfulArrives(sh, table, past, s);
    var lsf := LsfVectors(sh, table, s.frame);
    forall i | 1 <= i < NSUB
      ensures PacketFilters(sh, table, other, s.bytes)[i] == s.filters[i]
    {
      PastMattersOnce(sh, past, other, lsf, i);
    }
    var i := s.frame.start - 1;
    ResidualShowsState(sh, s.frame, PacketFilters(sh, table, other, s.bytes)[i], s.filters[i]);
  }

  // ---------- That the loss can be heard ----------

  /** A conversion that gives one value of frequency j a filter which passes everything, and all others a delay. */
  function Telltale(sh: Shared, j: nat, c: real): Shared {
    sh.(lsf2a := (v: seq<real>, k: nat) => if k == LPC_FILTERORDER && j < |v| && v[j] == c then 1.0 else 0.0)
  }

  lemma TelltaleFilter(sh: Shared, j: nat, c: real, v: seq<real>)
    requires j < |v|
    ensures var a := FilterOf(Telltale(sh, j, c), v);
            if v[j] == c then a[0] == 1.0 && Turned(a) == a else a == Delay()
  {
  }

  lemma Midway(x: seq<real>, y: seq<real>, j: nat)
    requires |x| == |y| == LPC_FILTERORDER && j < LPC_FILTERORDER
    ensures Between(x, y, Weight(0))[j] == 0.5 * x[j] + 0.5 * y[j]
  {
  }

  lemma SameVectors(sh: Shared, j: nat, c: real, table: seq<real>, f: Frame)
    requires Quantisers.IsLsfTable(table) && InRange(f)
    ensures LsfVectors(Telltale(sh, j, c), table, f) == LsfVectors(sh, table, f)
  {
    hide InRange, Quantisers.LsfOf, Quantisers.IsLsfTable;
    InRangeIsDecodable(f);
  }

  /** The filter of the first subframe, for a decoder that remembers `past`. */
  function FirstFilter(sh: Shared, table: seq<real>, past: seq<real>, f: Frame): (a: seq<real>)
    requires Quantisers.IsLsfTable(table) && InRange(f) && |past| == LPC_FILTERORDER
    ensures |a| == LPC_FILTERORDER + 1
  {
    SubframeFilters(sh, past, LsfVectors(sh, table, f))[0]
  }

  lemma FirstFilterIs(sh: Shared, table: seq<real>, past: seq<real>, f: Frame)
    requires Quantisers.IsLsfTable(table) && InRange(f) && |past| == LPC_FILTERORDER
    ensures FirstFilter(sh, table, past, f) == FilterOf(sh, Between(past, FirstOf(LsfVectors(sh, table, f)), Weight(0)))
  {
    hide InRange, LsfVectors, FilterOf, Between, Quantisers.IsLsfTable;
  }

  /**
   The start state in the first subframe is not decoded alike by every decoder: for any frame
   whose levels do not repeat every ten samples, and any two decoders that remember different
   vectors, there is a conversion under which the residuals differ.
   */
  lemma LossCanBeHeard(sh: Shared, table: seq<real>, past: seq<real>, other: seq<real>, f: Frame, k: nat)
    returns (heard: Shared)
    requires Quantisers.IsLsfTable(table) && InRange(f) && f.start == 1 && |past| == |other| == LPC_FILTERORDER
    requires past != other && k < STATE_SHORT_LEN == |f.idxVec| && f.idxVec[k] != f.idxVec[Round(k, STATE_SHORT_LEN)]
    ensures ResidualOf(heard, f, FirstFilter(heard, table, past, f)) != ResidualOf(heard, f, FirstFilter(heard, table, other, f))
  {
    hide InRange, LsfVectors, FilterOf, Between, ResidualOf, StateOf, FirstFilter, Telltale, Turned, Delay, Round,
         Quantisers.IsLsfTable;
    var first := FirstOf(LsfVectors(sh, table, f));
    var j: nat :| j < LPC_FILTERORDER && past[j] != other[j];
    var c := 0.5 * past[j] + 0.5 * first[j];
    heard := Telltale(sh, j, c);
    SameVectors(sh, j, c, table, f);
    FirstFilterIs(heard, table, past, f);
    FirstFilterIs(heard, table, other, f);
    Midway(past, first, j);
    Midway(other, first, j);
    TelltaleFilter(sh, j, c, Between(past, first, Weight(0)));
    TelltaleFilter(sh, j, c, Between(other, first, Weight(0)));
    ParameterRanges(f);
    FiltersMatter(heard, f.idxForMax, f.idxVec, FirstFilter(heard, table, past, f), k);
    ResidualShowsState(heard, f, FirstFilter(heard, table, past, f), FirstFilter(heard, table, other, f));
  }

  // ---------- Runs ----------

  /** The vector the encoder remembers after n frames. */
  function EncoderLsf(lsf0: seq<real>, run: seq<Sent>, n: nat): seq<real>
    requires n <= |run|
  {
    if n == 0 then lsf0 else run[n - 1].lsf
  }

  /** Packet i is faithful to the state the packets before it left. */
  ghost predicate FaithfulAt(sh: Shared, table: seq<real>, lsf0: seq<real>, run: seq<Sent>, i: nat)
    requires i < |run|
  {
    Faithful(sh, table, EncoderLsf(lsf0, run, i), run[i])
  }

  /** So is every packet of the run. */
  ghost predicate IsRun(sh: Shared, table: seq<real>, lsf0: seq<real>, run: seq<Sent>) {
    forall i :: 0 <= i < |run| ==> FaithfulAt(sh, table, lsf0, run, i)
  }

  lemma EarlierStayFaithful(sh: Shared, table: seq<real>, lsf0: seq<real>, run: seq<Sent>, s: Sent, i: nat)
    requires i < |run| && FaithfulAt(sh, table, lsf0, run, i)
    ensures FaithfulAt(sh, table, lsf0, run + [s], i)
  {
    hide Faithful;
    assert EncoderLsf(lsf0, run + [s], i) == EncoderLsf(lsf0, run, i);
  }

  lemma LastIsFaithful(sh: Shared, table: seq<real>, lsf0: seq<real>, run: seq<Sent>, s: Sent)
    requires Faithful(sh, table, EncoderLsf(lsf0, run, |run|), s)
    ensures FaithfulAt(sh, table, lsf0, run + [s], |run|)
  {
    hide Faithful;
    assert EncoderLsf(lsf0, run + [s], |run|) == EncoderLsf(lsf0, run, |run|);
  }

  /** A run goes on with any packet that the encoder makes next. */
  lemma RunGrows(sh: Shared, table: seq<real>, lsf0: seq<real>, run: seq<Sent>, s: Sent)
    requires IsRun(sh, table, lsf0, run) && Faithful(sh, table, EncoderLsf(lsf0, run, |run|), s)
    ensures IsRun(sh, table, lsf0, run + [s]) && EncoderLsf(lsf0, run + [s], |run| + 1) == s.lsf
  {
    hide Faithful, FaithfulAt;
    forall i | 0 <= i < |run + [s]|
      ensures FaithfulAt(sh, table, lsf0, run + [s], i)
    {
      if i < |run| {
        EarlierStayFaithful(sh, table, lsf0, run, s, i);
      } else {
        LastIsFaithful(sh, table, lsf0, run, s);
      }
    }
  }

  /** The channel: a packet arrives, or is missing. */
  function Delivered(run: seq<Sent>, arrives: seq<bool>, i: nat): Packet
    requires i < |run| == |arrives|
  {
    if arrives[i] then Arrived(run[i].bytes) else Missing
  }

  /** A decoder between frames, and for each packet whether it arrives and what the gain variable holds. */
  ghost predicate Listening(table: seq<real>, d: State, run: seq<Sent>, arrives: seq<bool>, unset: seq<real>) {
    Quantisers.IsLsfTable(table) && Ready(d) && |run| == |arrives| == |unset|
  }

  /** Packets of the right size for it. */
  ghost predicate Playable(table: seq<real>, d: State, run: seq<Sent>, arrives: seq<bool>, unset: seq<real>) {
    Listening(table, d, run, arrives, unset) && forall i :: 0 <= i < |run| ==> |run[i].bytes| == NO_OF_BYTES
  }

  /** The decoder after n packets. */
  ghost function DecoderAfter(sh: Shared, table: seq<real>, d: State, run: seq<Sent>, arrives: seq<bool>, unset: seq<real>,
                              n: nat): (e: State)
    requires Playable(table, d, run, arrives, unset) && n <= |run|
    ensures Ready(e)
  {
    if n == 0 then d
    else Receive(sh, table, DecoderAfter(sh, table, d, run, arrives, unset, n - 1), Delivered(run, arrives, n - 1), unset[n - 1])
  }

  /** The packets of a run have their size. */
  lemma RunIsPlayable(sh: Shared, table: seq<real>, lsf0: seq<real>, d: State, run: seq<Sent>, arrives: seq<bool>, unset: seq<real>)
    requires Listening(table, d, run, arrives, unset) && IsRun(sh, table, lsf0, run)
    ensures Playable(table, d, run, arrives, unset)
  {
    hide Faithful, Listening;
    forall i | 0 <= i < |run|
      ensures |run[i].bytes| == NO_OF_BYTES
    {
      assert FaithfulAt(sh, table, lsf0, run, i);
      FaithfulArrives(sh, table, EncoderLsf(lsf0, run, i), run[i]);
    }
  }

  /** Whatever was lost before, a packet that arrives brings the remembered vector back to the encoder's. */
  lemma Resynchronised(sh: Shared, table: seq<real>, lsf0: seq<real>, d: State, run: seq<Sent>, arrives: seq<bool>,
                       unset: seq<real>, n: nat)
    requires Listening(table, d, run, arrives, unset) && IsRun(sh, table, lsf0, run)
    requires 0 < n <= |run| && arrives[n - 1]
    ensures Playable(table, d, run, arrives, unset)
    ensures DecoderAfter(sh, table, d, run, arrives, unset, n).lsf == EncoderLsf(lsf0, run, n)
  {
    hide Faithful, LsfAfter, PlcAfter, Speech, LagAfter, BufferAfter, PeriodsAfter, Ready, Quantisers.IsLsfTable;
    RunIsPlayable(sh, table, lsf0, d, run, arrives, unset);
    assert FaithfulAt(sh, table, lsf0, run, n - 1);
    AnyPastSameVector(sh, table, EncoderLsf(lsf0, run, n - 1), run[n - 1],
                      DecoderAfter(sh, table, d, run, arrives, unset, n - 1));
  }

  /** Packet n decodes, before concealment, to exactly the residual the encoder rebuilt. */
  ghost predicate DecodesExactly(sh: Shared, table: seq<real>, past: seq<real>, s: Sent)
    requires Quantisers.IsLsfTable(table) && |past| == LPC_FILTERORDER
  {
    && |s.bytes| == NO_OF_BYTES && GoodStart(FrameOf(s.bytes))
    && PacketResidual(sh, table, past, s.bytes) == s.residual
  }

  /**
   Over any pattern of losses: a packet whose predecessor arrived, or whose start state is not
   in the first subframe, decodes to exactly the encoder's residual.
   */
  lemma LockstepUnderLoss(sh: Shared, table: seq<real>, lsf0: seq<real>, d: State, run: seq<Sent>, arrives: seq<bool>,
                          unset: seq<real>, n: nat)
    requires Listening(table, d, run, arrives, unset) && IsRun(sh, table, lsf0, run) && n < |run|
    requires run[n].frame.start >= 2 || (if n == 0 then d.lsf == lsf0 else arrives[n - 1])
    ensures Playable(table, d, run, arrives, unset)
    ensures DecodesExactly(sh, table, DecoderAfter(sh, table, d, run, arrives, unset, n).lsf, run[n])
  {
    hide Faithful, PacketFilters, PacketResidual, Receive, Quantisers.IsLsfTable, StateIn, GoodStart, FrameOf;
    RunIsPlayable(sh, table, lsf0, d, run, arrives, unset);
    var past, got := EncoderLsf(lsf0, run, n), DecoderAfter(sh, table, d, run, arrives, unset, n).lsf;
    assert FaithfulAt(sh, table, lsf0, run, n);
    OtherPast(sh, table, past, got, run[n]);
    if run[n].frame.start < 2 {
      if n > 0 {
        Resynchronised(sh, table, lsf0, d, run, arrives, unset, n);
      }
      SamePastSameFrame(sh, table, past, run[n]);
    }
  }

  /** The residual handed on for synthesis, and the filters of the frame, are those the encoder had. */
  ghost predicate PlaysExactly(sh: Shared, table: seq<real>, before: State, after: State, s: Sent)
    requires Quantisers.IsLsfTable(table) && Ready(before)
  {
    && after.plc.residual == s.residual && !after.plc.lost && after.lsf == s.lsf
    && |s.bytes| == NO_OF_BYTES && PacketFilters(sh, table, before.lsf, s.bytes) == s.filters
  }

  /** One packet, received by a decoder in step that has nothing to recover from. */
  lemma InStep(sh: Shared, table: seq<real>, past: seq<real>, d: State, s: Sent, unset: real)
    requires Faithful(sh, table, past, s) && Ready(d) && d.lsf == past && !d.plc.lost
    ensures IsPacket(Arrived(s.bytes)) && PlaysExactly(sh, table, d, Receive(sh, table, d, Arrived(s.bytes), unset), s)
  {
    hide Faithful, PacketFilters, PacketResidual, LsfAfter, FiltersUsed, Speech, LagAfter, BufferAfter, PeriodsAfter,
         Quantisers.IsLsfTable, FrameOf, C.Recovered, C.Concealed, C.Sound;
    FaithfulArrives(sh, table, past, s);
    SamePastSameFrame(sh, table, past, s);
    AnyPastSameVector(sh, table, past, s, d);
  }

  lemma NotLostAfterArrival(sh: Shared, table: seq<real>, d: State, p: Packet, unset: real)
    requires Quantisers.IsLsfTable(table) && Ready(d) && IsPacket(p) && Usable(p)
    ensures !Receive(sh, table, d, p, unset).plc.lost
  {
    hide PacketFilters, PacketResidual, LsfAfter, FiltersUsed, Speech, LagAfter, BufferAfter, PeriodsAfter,
         Quantisers.IsLsfTable, FrameOf, C.PitchHistory, C.Faded;
  }

  /**
   The whole decoder, concealment included: from the second packet in a row on, whatever was
   lost before them, the residual handed on for synthesis is the encoder's, and so
   are all six filters.
   */
  lemma SecondArrivalIsExact(sh: Shared, table: seq<real>, lsf0: seq<real>, d: State, run: seq<Sent>, arrives: seq<bool>,
                             unset: seq<real>, n: nat)
    requires Listening(table, d, run, arrives, unset) && IsRun(sh, table, lsf0, run) && n < |run| && arrives[n]
    requires if n == 0 then d.lsf == lsf0 && !d.plc.lost else arrives[n - 1]
    ensures Playable(table, d, run, arrives, unset)
    ensures PlaysExactly(sh, table, DecoderAfter(sh, table, d, run, arrives, unset, n),
                         DecoderAfter(sh, table, d, run, arrives, unset, n + 1), run[n])
  {
    hide Faithful, PlaysExactly, Receive, Ready, Quantisers.IsLsfTable, FrameOf;
    RunIsPlayable(sh, table, lsf0, d, run, arrives, unset);
    assert FaithfulAt(sh, table, lsf0, run, n);
    var before := DecoderAfter(sh, table, d, run, arrives, unset, n);
    if n > 0 {
      Resynchronised(sh, table, lsf0, d, run, arrives, unset, n);
      assert FaithfulAt(sh, table, lsf0, run, n - 1);
      FaithfulArrives(sh, table, EncoderLsf(lsf0, run, n - 1), run[n - 1]);
      NotLostAfterArrival(sh, table, DecoderAfter(sh, table, d, run, arrives, unset, n - 1), Arrived(run[n - 1].bytes),
                          unset[n - 1]);
    }
    InStep(sh, table, EncoderLsf(lsf0, run, n), before, run[n], unset[n]);
  }

  /**
   Without losses, from the initial states, for any number of frames: after every frame the
   vectors remembered agree, and the decoder's residual and filters are the encoder's.
   */
  lemma LockstepWithoutLoss(sh: Shared, table: seq<real>, lsf0: seq<real>, d: State, run: seq<Sent>, unset: seq<real>)
    requires Listening(table, d, run, seq(|run|, _ => true), unset) && IsRun(sh, table, lsf0, run)
    requires d.lsf == lsf0 && !d.plc.lost
    ensures Playable(table, d, run, seq(|run|, _ => true), unset)
    ensures var all := seq(|run|, _ => true);
            forall n :: 0 <= n < |run| ==>
              PlaysExactly(sh, table, DecoderAfter(sh, table, d, run, all, unset, n),
                           DecoderAfter(sh, table, d, run, all, unset, n + 1), run[n])
  {
    hide DecoderAfter, PlaysExactly, IsRun, Ready, Quantisers.IsLsfTable;
    var all := seq(|run|, _ => true);
    RunIsPlayable(sh, table, lsf0, d, run, all, unset);
    forall n | 0 <= n < |run|
      ensures PlaysExactly(sh, table, DecoderAfter(sh, table, d, run, all, unset, n),
                           DecoderAfter(sh, table, d, run, all, unset, n + 1), run[n])
    {
      SecondArrivalIsExact(sh, table, lsf0, d, run, all, unset, n);
    }
  }
}
