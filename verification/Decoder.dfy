/** iLBC_decode and its state: unpacking, decoding or concealing, synthesis. */
module Decoder {
  import opened Constants
  import opened DecoderSpec
  import opened Enhancer
  import opened FrameFilters
  import opened FrameLayout
  import opened FrameMeaning
  import opened IndexConversion
  import opened LagSearch
  import opened LsfInterpolation
  import opened SearchSpec
  import opened Sequences
  import opened StartState
  import C = ConcealmentSpec
  import Concealment
  import Quantisers
  import R = ResidualSpec
  import ResidualDecoding

  // ---------- Decode ----------

  /** SimplelsfDEQ and LSF_check. */
  method DequantiseLsf(sh: Shared, table: seq<real>, f: Frame) returns (lsfdeq: seq<real>)
    requires Quantisers.IsLsfTable(table) && InRange(f)
    ensures lsfdeq == LsfVectors(sh, table, f)
  {
    InRangeIsDecodable(f);
    var v := Quantisers.SimplelsfDEQ(table, f.lsf);
    lsfdeq := CheckedLsf(sh, v[..]);
  }

  /** Decode: the start state where it belongs, then the rest of the frame. */
  method DecodeResidual(sh: Shared, f: Frame, cbIndex: seq<nat>, filter: seq<real>) returns (decresidual: array<real>)
    requires InRange(f) && GoodStart(f) && cbIndex == UnfoldedAll(f.cbIndex) && |filter| == LPC_FILTERORDER + 1
    ensures fresh(decresidual) && decresidual.Length == BLOCKL && decresidual[..] == ResidualOf(sh, f, filter)
  {
    hide R.Decoded, R.Decodable, R.StartBlock, InRange, UnfoldedAll, StateOf;
    InRangeIsDecodable(f);
    ParameterRanges(f);
    decresidual := new real[BLOCKL];
    var startPos := (f.start - 1) * SUBL + if f.stateFirst == 1 then 0 else DIFF;
    StateConstructW(sh, f.idxForMax, f.idxVec, filter, decresidual, startPos);
    ghost var state := StateIn(sh, f, filter);
    assert Sub(decresidual[..], startPos, STATE_SHORT_LEN) == state;
    ResidualDecoding.DecodeFrom(decresidual, f.start, f.stateFirst == 1, state, f.extraCbIndex, f.extraGainIndex,
                                cbIndex, f.gainIndex);
  }

  // ---------- The decoder ----------

  class Instance {
    var lsfdeqold: seq<real>
    var prevPLI: bool
    var consPLICount: nat
    var prevLag: nat
    var prevGain: real
    var prevLpc: seq<real>
    var prevResidual: seq<real>
    var energy: real
    var seed: nat
    var lastLag: nat
    var oldSyntdenum: seq<seq<real>>
    var prevEnhPl: bool
    const useEnhancer: bool
    const syntMem: array<real>
    const enhBuf: array<real>
    const enhPeriod: array<real>

    ghost function Plc(): C.State
      reads this
    {
      C.State(prevPLI, consPLICount, prevLag, prevGain, prevLpc, prevResidual, seed)
    }

    ghost function Contents(): State
      reads this, syntMem, enhBuf, enhPeriod
    {
      State(lsfdeqold, Plc(), lastLag, syntMem[..], oldSyntdenum, useEnhancer, enhBuf[..], enhPeriod[..], prevEnhPl)
    }

    /** Three different arrays. */
    ghost predicate Apart() {
      syntMem != enhBuf && enhBuf != enhPeriod && syntMem != enhPeriod
    }

    /** initDecode, for the table of mean frequencies. */
    constructor (lsfmean: seq<real>, useEnhancer: bool)
      requires |lsfmean| == LPC_FILTERORDER
      ensures fresh(syntMem) && fresh(enhBuf) && fresh(enhPeriod) && Apart()
      ensures Contents() == Initial(lsfmean, useEnhancer) && Ready(Contents())
    {
      this.useEnhancer := useEnhancer;
      lsfdeqold := lsfmean;
      lastLag := 20;
      prevLag, prevGain, consPLICount, prevPLI := 120, 0.0, 0, false;
      prevLpc := [1.0] + seq(LPC_FILTERORDER, _ => 0.0);
      prevResidual := seq(BLOCKL, _ => 0.0);
      energy := 0.0;
      seed := 777;
      prevEnhPl := false;
      oldSyntdenum := seq(NSUB, _ => [1.0] + seq(LPC_FILTERORDER, _ => 0.0));
      syntMem := new real[LPC_FILTERORDER](_ => 0.0);
      enhBuf := new real[ENH_BUFL](_ => 0.0);
      enhPeriod := new real[ENH_NBLOCKS_TOT](_ => 40.0);
      new;
      assert Contents() == Initial(lsfmean, useEnhancer);
    }

    /** The lag and the gain a lost frame starts from; one more loss counted. */
    method PitchForLoss(inlag: nat) returns (lag: nat, gain: real)
      requires C.Sound(Plc()) && C.IsLag(inlag)
      modifies `consPLICount
      ensures consPLICount == old(consPLICount) + 1
      ensures lag == C.LagOf(old(Plc()), inlag) && gain == C.GainOfLoss(old(Plc()), inlag)
    {
      hide C.CorrelationGain, C.BestLag;
      consPLICount := consPLICount + 1;
      if !prevPLI {
        lag, gain := Concealment.FindPitch(prevResidual, inlag);
        if gain > 1.0 {
          gain := 1.0;
        }
      } else {
        lag, gain := prevLag, prevGain;
      }
      if consPLICount > 1 {
        gain := gain * 0.9;
      }
    }

    /** doThePLC for a lost frame. */
    method Conceal(plcResidual: array<real>, inlag: nat) returns (plcLpc: seq<real>)
      requires C.Sound(Plc()) && C.IsLag(inlag) && plcResidual.Length == BLOCKL
      modifies plcResidual, `prevPLI, `consPLICount, `prevLag, `prevGain, `prevLpc, `prevResidual, `energy, `seed
      ensures Plc() == C.Concealed(old(Plc()), inlag)
      ensures plcResidual[..] == prevResidual && plcLpc == prevLpc && energy == Energy(prevResidual)
    {
      hide C.PitchHistory, C.NoiseHistory, C.SeedAfter, C.Quiet, C.CorrelationGain, C.ConcealedLpc, Energy, C.LagOf, C.GainOfLoss;
      var lag, gain := PitchForLoss(inlag);
      var recorded;
      seed, recorded, energy := Concealment.ConcealResidual(plcResidual, prevResidual, lag, gain, seed);
      plcLpc := Concealment.ConcealLpc(prevLpc);
      prevLag, prevGain, prevPLI, prevLpc, prevResidual := lag, recorded, true, plcLpc, plcResidual[..];
    }

    /** doThePLC for a good frame; `unset` is what the gain variable holds when nothing was assigned to it. */
    method Pass(plcResidual: array<real>, decresidual: seq<real>, lpc: seq<real>, unset: real) returns (plcLpc: seq<real>)
      requires C.Sound(Plc()) && plcResidual.Length == BLOCKL && |decresidual| == BLOCKL && |lpc| == LPC_FILTERORDER + 1
      modifies plcResidual, `prevPLI, `consPLICount, `prevLag, `prevGain, `prevLpc, `prevResidual, `energy, `seed
      ensures Plc() == C.Step(old(Plc()), C.Good(decresidual, lpc), unset)
      ensures plcResidual[..] == prevResidual && plcLpc == prevLpc && energy == old(energy)
    {
      hide C.PitchHistory, C.NoiseHistory, C.SeedAfter, C.Faded;
      var lag, gain := 20, unset;
      if prevPLI {
        lag, gain := prevLag, prevGain;
        if gain >= 0.5 {
          seed := Concealment.RecoverResidual(plcResidual, prevResidual, lag, gain, seed, decresidual);
        } else {
          forall i | 0 <= i < BLOCKL {
            plcResidual[i] := decresidual[i];
          }
        }
        consPLICount := 0;
      } else {
        forall i | 0 <= i < BLOCKL {
          plcResidual[i] := decresidual[i];
        }
      }
      plcLpc := lpc;
      prevLag, prevGain, prevPLI, prevLpc, prevResidual := lag, gain, false, plcLpc, plcResidual[..];
    }

    /** The branch for a good packet: residual and filters, and the concealment told about them. */
    method DecodeGood(sh: Shared, table: seq<real>, f: Frame, unset: real, decresidual: array<real>)
      returns (syntdenum: seq<seq<real>>)
      requires Quantisers.IsLsfTable(table) && |lsfdeqold| == LPC_FILTERORDER && C.Sound(Plc())
      requires InRange(f) && GoodStart(f) && decresidual.Length == BLOCKL
      modifies decresidual, `lsfdeqold, `prevPLI, `consPLICount, `prevLag, `prevGain, `prevLpc, `prevResidual, `energy, `seed
      ensures var lsf := LsfVectors(sh, table, f);
              && syntdenum == SubframeFilters(sh, old(lsfdeqold), lsf) && lsfdeqold == SecondOf(lsf)
              && Plc() == C.Step(old(Plc()), C.Good(ResidualOf(sh, f, syntdenum[f.start - 1]), syntdenum[NSUB - 1]), unset)
      ensures decresidual[..] == prevResidual
    {
      hide InRange, UnfoldedAll, ResidualOf, C.Step, LsfVectors, SubframeFilters, Quantisers.IsLsfTable;
      InRangeShape(f);
      var cbIndex := new nat[|f.cbIndex|](i requires 0 <= i < |f.cbIndex| => f.cbIndex[i]);
      assert cbIndex[..] == f.cbIndex;
      IndexConvDec(cbIndex);
      var lsfdeq := DequantiseLsf(sh, table, f);
      var synt, weight, remembered := DecoderInterpolateLSF(sh, lsfdeqold, lsfdeq);
      syntdenum, lsfdeqold := synt[..], remembered;
      var decoded := DecodeResidual(sh, f, cbIndex[..], syntdenum[f.start - 1]);
      var lpc := Pass(decresidual, decoded[..], syntdenum[NSUB - 1], unset);
    }

    /** What the end of iLBC_decode finds: all but the concealment and the vector as the last frame left it. */
    ghost predicate Since(d: State)
      reads this, syntMem, enhBuf, enhPeriod
    {
      && d.syntMem == syntMem[..] && d.filters == oldSyntdenum && d.enhancing == useEnhancer && d.buf == enhBuf[..]
      && d.period == enhPeriod[..] && d.afterLoss == prevEnhPl
    }

    /** Enhancement or the lag search, then synthesis, in place or in the enhanced frame. */
    method Render(sh: Shared, decresidual: array<real>, syntdenum: seq<seq<real>>, ghost d: State) returns (data: array<real>)
      requires Apart() && Ready(d) && Since(d) && decresidual.Length == BLOCKL && AreFrameFilters(syntdenum)
      requires decresidual != syntMem && decresidual != enhBuf && decresidual != enhPeriod
      modifies decresidual, syntMem, enhBuf, enhPeriod, `lastLag
      ensures data == decresidual || fresh(data)
      ensures data[..] == SynthesisedTo(d.syntMem, FiltersPlayed(d, syntdenum), Excitation(sh, d, old(decresidual[..])), NSUB)
      ensures syntMem[..] == MemoryAfter(d.syntMem, data[..]) && lastLag == LagAfter(d, old(decresidual[..]))
      ensures enhBuf[..] == BufferAfter(d, old(decresidual[..])) && enhPeriod[..] == PeriodsAfter(d, old(decresidual[..]))
    {
      hide SynthesisedTo, MemoryAfter, Refreshed, Periods, Period, Enhanced, BestLag, FirstLag;
      data := decresidual;
      if useEnhancer {
        data, lastLag := EnhancerInterface(sh, decresidual[..], enhBuf, enhPeriod, prevEnhPl);
        SynthesiseFrame(data, oldSyntdenum[4..] + syntdenum[..4], syntMem);
      } else {
        lastLag := FindLag(ENDING, decresidual[..], 20, 119);
        SynthesiseFrame(data, syntdenum, syntMem);
      }
    }

    /** The two branches of iLBC_decode: the frame in a good packet, or concealment. */
    method DecodeOrConceal(sh: Shared, table: seq<real>, p: Packet, unset: real, residual: array<real>)
      returns (mode: bool, syntdenum: seq<seq<real>>)
      requires Quantisers.IsLsfTable(table) && Ready(Contents()) && IsPacket(p) && residual.Length == BLOCKL
      requires residual != syntMem && residual != enhBuf && residual != enhPeriod
      modifies residual, `lsfdeqold, `prevPLI, `consPLICount, `prevLag, `prevGain, `prevLpc, `prevResidual, `energy, `seed
      ensures mode == Usable(p)
      ensures Plc() == PlcAfter(sh, table, old(Contents()), p, unset) && residual[..] == prevResidual
      ensures lsfdeqold == LsfAfter(sh, table, old(Contents()), p)
      ensures syntdenum == FiltersUsed(sh, table, old(Contents()), p, unset)
    {
      hide C.Step, C.Concealed, C.Sound, IsEnhancer, PlcAfter, FiltersUsed, LsfAfter, LsfVectors, SubframeFilters, ResidualOf,
           FrameOf, InRange, Quantisers.IsLsfTable;
      ghost var d := Contents();
      var f := NoFrame();
      mode, syntdenum := p.Arrived?, [];
      if p.Arrived? {
        f := Unpack(p.bytes);
        FrameOfIsInRange(p.bytes);
        if f.start < 1 || f.start > 5 {
          mode := false;
        }
      }
      if mode {
        UsablePacket(sh, table, d, p, unset);
        syntdenum := DecodeGood(sh, table, f, unset, residual);
      } else {
        UnusablePacket(sh, table, d, p, unset);
        var plcLpc := Conceal(residual, lastLag);
        syntdenum := seq(NSUB, _ => plcLpc);
      }
    }

    /** iLBC_decode, for a packet that arrived or did not. */
    method Decode(sh: Shared, table: seq<real>, p: Packet, unset: real) returns (decblock: array<real>)
      requires Quantisers.IsLsfTable(table) && Ready(Contents()) && IsPacket(p) && Apart()
      modifies this, syntMem, enhBuf, enhPeriod
      ensures Contents() == Receive(sh, table, old(Contents()), p, unset)
      ensures fresh(decblock) && decblock[..] == Speech(sh, table, old(Contents()), p, unset)
    {
      hide C.Sound, IsEnhancer, PlcAfter, FiltersUsed, FiltersPlayed, LsfAfter, Excitation, LagAfter, BufferAfter,
           PeriodsAfter, SynthesisedTo, MemoryAfter, Ready, Usable, Quantisers.IsLsfTable;
      ghost var d := Contents();
      var residual := new real[BLOCKL];
      var mode, syntdenum := DecodeOrConceal(sh, table, p, unset, residual);
      decblock := Render(sh, residual, syntdenum, d);
      oldSyntdenum, prevEnhPl := syntdenum, !mode;
    }
  }

  function NoFrame(): Frame {
    Frame([], 0, 0, 0, [], [], [], [], [])
  }

  lemma InRangeShape(f: Frame)
    requires InRange(f)
    ensures |f.cbIndex| == 12
  {
  }
}
