/** The decoder as a state machine over packets: received, lost, or damaged in the start position. */
module DecoderSpec {
  import opened Constants
  import opened Enhancer
  import opened FrameFilters
  import opened FrameLayout
  import opened FrameMeaning
  import opened LagSearch
  import opened LsfInterpolation
  import opened Packing
  import opened Sequences
  import C = ConcealmentSpec
  import Quantisers
  import SearchSpec

  // ---------- One packet ----------

  /**
   What the decoder carries from frame to frame: the vector remembered, the concealment, the
   lag for a loss, the synthesis memory, the filters of the last frame; whether it enhances,
   with its buffer and periods, and whether the last frame was concealed.
   */
  datatype State = State(lsf: seq<real>, plc: C.State, lastLag: nat, syntMem: seq<real>, filters: seq<seq<real>>,
                         enhancing: bool, buf: seq<real>, period: seq<real>, afterLoss: bool)

  predicate Ready(d: State) {
    && |d.lsf| == LPC_FILTERORDER && C.Sound(d.plc) && d.plc.lpc[0] == 1.0
    && C.IsLag(d.lastLag) && |d.syntMem| == LPC_FILTERORDER && AreFrameFilters(d.filters)
    && IsEnhancer(d.buf, d.period) && d.afterLoss == d.plc.lost
  }

  /** Before the first frame. */
  function Initial(lsfmean: seq<real>, enhancing: bool): (d: State)
    requires |lsfmean| == LPC_FILTERORDER
  {
    var one := [1.0] + seq(LPC_FILTERORDER, _ => 0.0);
    State(lsfmean, C.State(false, 0, 120, 0.0, one, seq(BLOCKL, _ => 0.0), 777), 20, seq(LPC_FILTERORDER, _ => 0.0),
          seq(NSUB, _ => one), enhancing, seq(ENH_BUFL, _ => 0.0), seq(ENH_NBLOCKS_TOT, _ => 40.0), false)
  }

  datatype Packet = Missing | Arrived(bytes: seq<byte>)

  predicate IsPacket(p: Packet) {
    p.Arrived? ==> |p.bytes| == NO_OF_BYTES
  }

  /** A packet that arrived and whose start position is in range. */
  predicate Usable(p: Packet)
    requires IsPacket(p)
  {
    p.Arrived? && GoodStart(FrameOf(p.bytes))
  }

  /** The filters of the frame in a packet, for a decoder that remembers `past`. */
  function PacketFilters(sh: Shared, table: seq<real>, past: seq<real>, bytes: seq<byte>): (f: seq<seq<real>>)
    requires Quantisers.IsLsfTable(table) && |past| == LPC_FILTERORDER && |bytes| == NO_OF_BYTES
    ensures AreFrameFilters(f)
  {
    FrameOfIsInRange(bytes);
    SubframeFilters(sh, past, LsfVectors(sh, table, FrameOf(bytes)))
  }

  /** The residual of the frame in a packet. */
  function PacketResidual(sh: Shared, table: seq<real>, past: seq<real>, bytes: seq<byte>): (r: seq<real>)
    requires Quantisers.IsLsfTable(table) && |past| == LPC_FILTERORDER && |bytes| == NO_OF_BYTES && GoodStart(FrameOf(bytes))
    ensures |r| == BLOCKL
  {
    hide FrameOf, InRange, PacketFilters, ResidualOf, Quantisers.IsLsfTable;
    FrameOfIsInRange(bytes);
    ResidualOf(sh, FrameOf(bytes), PacketFilters(sh, table, past, bytes)[FrameOf(bytes).start - 1])
  }

  /** What the concealment sees. */
  function PlcFrame(sh: Shared, table: seq<real>, d: State, p: Packet): (f: C.Frame)
    requires Quantisers.IsLsfTable(table) && Ready(d) && IsPacket(p)
    ensures C.IsFrame(f) && (f.Good? ==> f.lpc[0] == 1.0)
  {
    if Usable(p)
    then C.Good(PacketResidual(sh, table, d.lsf, p.bytes), PacketFilters(sh, table, d.lsf, p.bytes)[NSUB - 1])
    else C.Lost(d.lastLag)
  }

  function PlcAfter(sh: Shared, table: seq<real>, d: State, p: Packet, unset: real): (s: C.State)
    requires Quantisers.IsLsfTable(table) && Ready(d) && IsPacket(p)
    ensures C.Sound(s) && s.lpc[0] == 1.0 && s.lost == !Usable(p)
  {
    hide C.Step;
    C.StepRecordsLoss(d.plc, PlcFrame(sh, table, d, p), unset);
    C.StepKeepsSound(d.plc, PlcFrame(sh, table, d, p), unset);
    C.StepKeepsMonic(d.plc, PlcFrame(sh, table, d, p), unset);
    C.Step(d.plc, PlcFrame(sh, table, d, p), unset)
  }

  /** The filters the frame is synthesised with. */
  function FiltersUsed(sh: Shared, table: seq<real>, d: State, p: Packet, unset: real): (f: seq<seq<real>>)
    requires Quantisers.IsLsfTable(table) && Ready(d) && IsPacket(p)
    ensures AreFrameFilters(f)
  {
    hide FrameOf, PacketFilters, PlcAfter, C.IsLag, IsEnhancer, Quantisers.IsLsfTable;
    if Usable(p) then PacketFilters(sh, table, d.lsf, p.bytes)
    else seq(NSUB, _ => PlcAfter(sh, table, d, p, unset).lpc)
  }

  // ---------- From the residual to speech ----------

  /** The last block of a frame with the block a lag earlier. */
  const ENDING: Search := Search(BLOCKL - ENH_BLOCKL, ENH_BLOCKL, true)

  function BufferAfter(d: State, residual: seq<real>): (b: seq<real>)
    requires Ready(d) && |residual| == BLOCKL
    ensures |b| == ENH_BUFL
  {
    if d.enhancing then Refreshed(d.buf, residual, d.afterLoss) else d.buf
  }

  function PeriodsAfter(d: State, residual: seq<real>): (p: seq<real>)
    requires Ready(d) && |residual| == BLOCKL
    ensures IsEnhancer(BufferAfter(d, residual), p)
  {
    PeriodsStayInRange(d.buf, d.period, BufferAfter(d, residual));
    if d.enhancing then Periods(d.period, BufferAfter(d, residual)) else d.period
  }

  /** The lag recorded for a loss: the enhancer's last period, or the best at the end of the residual. */
  function LagAfter(d: State, residual: seq<real>): (lag: nat)
    requires Ready(d) && |residual| == BLOCKL
    ensures C.IsLag(lag)
  {
    if d.enhancing then Period(BufferAfter(d, residual), ENH_NBLOCKS - 1) else BestLag(ENDING, residual, 20, 119)
  }

  function Excitation(sh: Shared, d: State, residual: seq<real>): (e: seq<real>)
    requires Ready(d) && |residual| == BLOCKL
    ensures |e| == BLOCKL
  {
    if d.enhancing then Enhanced(sh, BufferAfter(d, residual), PeriodsAfter(d, residual)) else residual
  }

  /** The enhancer is a block, two subframes, late; so are the filters after it. */
  function FiltersPlayed(d: State, filters: seq<seq<real>>): (f: seq<seq<real>>)
    requires Ready(d) && AreFrameFilters(filters)
    ensures AreFrameFilters(f)
  {
    if d.enhancing then d.filters[4..] + filters[..4] else filters
  }

  function Speech(sh: Shared, table: seq<real>, d: State, p: Packet, unset: real): (x: seq<real>)
    requires Quantisers.IsLsfTable(table) && Ready(d) && IsPacket(p)
    ensures |x| == BLOCKL
  {
    SynthesisedTo(d.syntMem, FiltersPlayed(d, FiltersUsed(sh, table, d, p, unset)),
                  Excitation(sh, d, PlcAfter(sh, table, d, p, unset).residual), NSUB)
  }

  function LsfAfter(sh: Shared, table: seq<real>, d: State, p: Packet): (v: seq<real>)
    requires Quantisers.IsLsfTable(table) && Ready(d) && IsPacket(p)
    ensures |v| == LPC_FILTERORDER
  {
    if Usable(p) then
      FrameOfIsInRange(p.bytes);
      SecondOf(LsfVectors(sh, table, FrameOf(p.bytes)))
    else d.lsf
  }

  lemma UsablePacket(sh: Shared, table: seq<real>, d: State, p: Packet, unset: real)
    requires Quantisers.IsLsfTable(table) && Ready(d) && IsPacket(p) && Usable(p)
    ensures InRange(FrameOf(p.bytes))
    ensures var f := FrameOf(p.bytes);
            var lsf := LsfVectors(sh, table, f);
            var filters := SubframeFilters(sh, d.lsf, lsf);
            && PlcAfter(sh, table, d, p, unset)
               == C.Step(d.plc, C.Good(ResidualOf(sh, f, filters[f.start - 1]), filters[NSUB - 1]), unset)
            && FiltersUsed(sh, table, d, p, unset) == filters && LsfAfter(sh, table, d, p) == SecondOf(lsf)
  {
    hide C.Step, FrameOf, InRange, LsfVectors, ResidualOf, SubframeFilters, Quantisers.IsLsfTable, C.Sound;
    FrameOfIsInRange(p.bytes);
  }

  lemma UnusablePacket(sh: Shared, table: seq<real>, d: State, p: Packet, unset: real)
    requires Quantisers.IsLsfTable(table) && Ready(d) && IsPacket(p) && !Usable(p)
    ensures PlcAfter(sh, table, d, p, unset) == C.Concealed(d.plc, d.lastLag) && LsfAfter(sh, table, d, p) == d.lsf
    ensures FiltersUsed(sh, table, d, p, unset) == seq(NSUB, _ => C.Concealed(d.plc, d.lastLag).lpc)
  {
    hide FrameOf, Quantisers.IsLsfTable, C.Sound, C.Concealed;
  }

  function Receive(sh: Shared, table: seq<real>, d: State, p: Packet, unset: real): (e: State)
    requires Quantisers.IsLsfTable(table) && Ready(d) && IsPacket(p)
    ensures Ready(e)
  {
    hide LsfAfter, PlcAfter, Usable, FiltersUsed, Speech, LagAfter, BufferAfter, PeriodsAfter, MemoryAfter,
         Quantisers.IsLsfTable;
    var plc := PlcAfter(sh, table, d, p, unset);
    State(LsfAfter(sh, table, d, p), plc, LagAfter(d, plc.residual), MemoryAfter(d.syntMem, Speech(sh, table, d, p, unset)),
          FiltersUsed(sh, table, d, p, unset), d.enhancing, BufferAfter(d, plc.residual), PeriodsAfter(d, plc.residual),
          !Usable(p))
  }

  // ---------- The delay of the enhancer ----------

  lemma BufferEndsWith(buf: seq<real>, x: seq<real>, afterLoss: bool)
    requires |buf| == ENH_BUFL && |x| == BLOCKL
    ensures Sub(Refreshed(buf, x, afterLoss), OLD, BLOCKL) == x
  {
    hide GainAhead, LagAhead;
  }

  lemma BufferKeeps(buf: seq<real>, x: seq<real>)
    requires |buf| == ENH_BUFL && |x| == BLOCKL
    ensures Sub(Refreshed(buf, x, false), OLD - ENH_BLOCKL, ENH_BLOCKL) == Sub(buf, ENH_BUFL - ENH_BLOCKL, ENH_BLOCKL)
  {
  }

  /** The frame, and in it the subframe, that subframe j of the enhanced frame comes from: two subframes earlier. */
  function Source(earlier: State, later: State, j: nat): (State, nat) {
    if j < 2 then (earlier, j + 4) else (later, j - 2)
  }

  /**
   Subframe j of the later frame is played with the filter of the subframe that lies at its
   place in the buffer. Only the end of a concealed frame lies there no more: it was replaced.
   */
  predicate InTime(earlier: State, later: State, j: nat)
    requires Ready(earlier) && Ready(later) && j < NSUB
  {
    var (from, i) := Source(earlier, later, j);
    && FiltersPlayed(earlier, later.filters)[j] == from.filters[i]
    && (j >= 2 || !earlier.afterLoss ==>
          Sub(later.buf, OLD - ENH_BLOCKL + j * SUBL, SUBL) == Sub(from.plc.residual, i * SUBL, SUBL))
  }

  lemma BuffersInTime(d: State, earlier: State, later: State, j: nat)
    requires Ready(d) && Ready(earlier) && Ready(later) && earlier.enhancing && j < NSUB
    requires earlier.buf == Refreshed(d.buf, earlier.plc.residual, d.afterLoss)
    requires later.buf == Refreshed(earlier.buf, later.plc.residual, earlier.afterLoss)
    ensures InTime(earlier, later, j)
  {
    hide Refreshed, Sub;
    var x, y := earlier.plc.residual, later.plc.residual;
    BufferEndsWith(d.buf, x, d.afterLoss);
    BufferEndsWith(earlier.buf, y, earlier.afterLoss);
    if j >= 2 {
      SubSub(later.buf, OLD, BLOCKL, (j - 2) * SUBL, SUBL);
    } else if !earlier.afterLoss {
      BufferKeeps(earlier.buf, y);
      SubSub(later.buf, OLD - ENH_BLOCKL, ENH_BLOCKL, j * SUBL, SUBL);
      SubSub(earlier.buf, ENH_BUFL - ENH_BLOCKL, ENH_BLOCKL, j * SUBL, SUBL);
      SubSub(earlier.buf, OLD, BLOCKL, (j + 4) * SUBL, SUBL);
    }
  }

  /** After any two packets the enhancer and the filters behind it keep the same time. */
  lemma EnhancerIsInTime(sh: Shared, table: seq<real>, d: State, p: Packet, q: Packet, unset: real, unset': real, j: nat)
    requires Quantisers.IsLsfTable(table) && Ready(d) && IsPacket(p) && IsPacket(q) && d.enhancing && j < NSUB
    ensures InTime(Receive(sh, table, d, p, unset), Receive(sh, table, Receive(sh, table, d, p, unset), q, unset'), j)
  {
    hide PlcAfter, FiltersUsed, LsfAfter, Speech, LagAfter, PeriodsAfter, MemoryAfter, Refreshed, Usable, InTime, Ready,
         Quantisers.IsLsfTable;
    var earlier := Receive(sh, table, d, p, unset);
    var later := Receive(sh, table, earlier, q, unset');
    BuffersInTime(d, earlier, later, j);
  }

  /**
   With a smoothing that copies, subframe j of what is played after two packets is exactly the
   subframe of the residual that `Source` names, under the filter it was decoded with.
   */
  predicate PlayedInTime(sh: Shared, earlier: State, later: State, j: nat)
    requires Ready(earlier) && Ready(later) && j < NSUB
  {
    var (from, i) := Source(earlier, later, j);
    && FiltersPlayed(earlier, later.filters)[j] == from.filters[i]
    && (j >= 2 || !earlier.afterLoss ==>
          Sub(Excitation(sh, earlier, later.plc.residual), j * SUBL, SUBL) == Sub(from.plc.residual, i * SUBL, SUBL))
  }

  lemma EnhancementIsInTime(sh: Shared, table: seq<real>, d: State, p: Packet, q: Packet, unset: real, unset': real, j: nat)
    requires Quantisers.IsLsfTable(table) && Ready(d) && IsPacket(p) && IsPacket(q) && d.enhancing && Copies(sh) && j < NSUB
    ensures PlayedInTime(sh, Receive(sh, table, d, p, unset),
                         Receive(sh, table, Receive(sh, table, d, p, unset), q, unset'), j)
  {
    hide PlcAfter, FiltersUsed, LsfAfter, Speech, LagAfter, PeriodsAfter, MemoryAfter, Refreshed, Usable, Ready, Copies,
         Enhanced, Sub, FiltersPlayed, Quantisers.IsLsfTable;
    var earlier := Receive(sh, table, d, p, unset);
    var later := Receive(sh, table, earlier, q, unset');
    EnhancerIsInTime(sh, table, d, p, q, unset, unset', j);
    EnhancedReads(sh, later.buf, later.period);
    SubSub(later.buf, OLD - ENH_BLOCKL, BLOCKL, j * SUBL, SUBL);
  }

  // ---------- Periods and lags ----------

  /** The frame in which block b of the buffer was new, and its number there. */
  function BlockOf(earlier: State, later: State, b: nat): (State, nat)
    requires 2 <= b < ENH_NBLOCKS_TOT
  {
    if b < 5 then (earlier, b - 2) else (later, b - 5)
  }

  /**
   The period kept for a block of the buffer is the one that was found when it was new, and the
   block is the one for which it was found, unless it was replaced since.
   */
  predicate PeriodInTime(earlier: State, later: State, b: nat)
    requires Ready(earlier) && Ready(later) && 2 <= b < ENH_NBLOCKS_TOT
  {
    var (from, i) := BlockOf(earlier, later, b);
    && later.period[b] == Period(from.buf, i) as real
    && (b != 4 || !earlier.afterLoss ==>
          Sub(later.buf, b * ENH_BLOCKL, ENH_BLOCKL) == Sub(from.buf, OLD + i * ENH_BLOCKL, ENH_BLOCKL))
  }

  lemma BlocksMove(buf: seq<real>, x: seq<real>, afterLoss: bool, b: nat)
    requires |buf| == ENH_BUFL && |x| == BLOCKL && 2 <= b < 5 && (b == 4 ==> !afterLoss)
    ensures Sub(Refreshed(buf, x, afterLoss), b * ENH_BLOCKL, ENH_BLOCKL) == Sub(buf, OLD + (b - 2) * ENH_BLOCKL, ENH_BLOCKL)
  {
    hide GainAhead, LagAhead;
  }

  lemma BuffersKeepPeriods(d: State, earlier: State, later: State, b: nat)
    requires Ready(d) && Ready(earlier) && Ready(later) && 2 <= b < ENH_NBLOCKS_TOT
    requires earlier.period == Periods(d.period, earlier.buf)
    requires later.buf == Refreshed(earlier.buf, later.plc.residual, earlier.afterLoss)
    requires later.period == Periods(earlier.period, later.buf)
    ensures PeriodInTime(earlier, later, b)
  {
    hide Period, Refreshed, Sub;
    if b < 5 && (b == 4 ==> !earlier.afterLoss) {
      BlocksMove(earlier.buf, later.plc.residual, earlier.afterLoss, b);
    }
  }

  lemma PeriodsAreInTime(sh: Shared, table: seq<real>, d: State, p: Packet, q: Packet, unset: real, unset': real, b: nat)
    requires Quantisers.IsLsfTable(table) && Ready(d) && IsPacket(p) && IsPacket(q) && d.enhancing && 2 <= b < ENH_NBLOCKS_TOT
    ensures PeriodInTime(Receive(sh, table, d, p, unset), Receive(sh, table, Receive(sh, table, d, p, unset), q, unset'), b)
  {
    hide PlcAfter, FiltersUsed, LsfAfter, Speech, LagAfter, MemoryAfter, Periods, PeriodInTime, Ready, Refreshed, Usable,
         Quantisers.IsLsfTable;
    var earlier := Receive(sh, table, d, p, unset);
    var later := Receive(sh, table, earlier, q, unset');
    BuffersKeepPeriods(d, earlier, later, b);
  }

  /** The lag handed to a loss is the period of the last block. */
  lemma LossLagIsLastPeriod(sh: Shared, table: seq<real>, d: State, p: Packet, unset: real)
    requires Quantisers.IsLsfTable(table) && Ready(d) && IsPacket(p) && d.enhancing
    ensures var e := Receive(sh, table, d, p, unset); e.lastLag as real == e.period[ENH_NBLOCKS_TOT - 1]
  {
    hide PlcAfter, FiltersUsed, LsfAfter, Speech, BufferAfter, MemoryAfter, Usable, Period, Quantisers.IsLsfTable;
  }

  /** The last 80 samples of a residual are, up to a positive factor, those l samples before. */
  ghost predicate EndRepeats(x: seq<real>, l: nat)
    requires |x| == BLOCKL && l <= 160
  {
    Repeats(Sub(x, 160, 80), Sub(x, 160 - l, 80))
  }

  /** Without enhancer it is the smallest lag at which the end of the residual repeats, if there is one. */
  lemma LossLagIsPeriod(d: State, x: seq<real>, l: nat)
    requires Ready(d) && |x| == BLOCKL && !d.enhancing && 20 <= l <= 119
    requires EndRepeats(x, l) && SearchSpec.Energy(Sub(x, 160, 80)) > 0.0
    ensures LagAfter(d, x) <= l && EndRepeats(x, LagAfter(d, x))
    ensures forall k :: 20 <= k < LagAfter(d, x) ==> !EndRepeats(x, k)
  {
    hide BestLag, Repeats, Sub, SearchSpec.Energy;
    PeriodIsFound(ENDING, x, 20, 119, l);
    forall k | 20 <= k < LagAfter(d, x)
      ensures !EndRepeats(x, k)
    {
      assert Sub(x, Other(ENDING, k), 80) == Sub(x, 160 - k, 80);
    }
  }
}
