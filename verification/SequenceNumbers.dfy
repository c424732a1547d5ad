/**
 Sequence bookkeeping of the receiver: 16-bit packet numbers unwrapped by counting cycles, in
 the order and with the early returns of receive_and_playout.
 */
module SequenceNumbers {

  const RTP_SEQ_MOD: nat := 0x1_0000
  const MAX_DROPOUT: nat := 3000
  const MAX_MISORDER: nat := 100

  datatype SeqType = Normal | Gap | Reset | Bad | Dup

  /** The fields of the session: number of the last packet played, of the packet at hand, the cycles and the losses counted. */
  datatype Session = Session(initial: nat, bad: nat, cycles: nat, cur: nat, prev: nat, lost: nat)

  const FRESH: Session := Session(0, 0, 0, 0, 0, 0)

  /** The loss counter has 32 bits. */
  const LOSS_MOD: nat := 0x1_0000_0000

  // ---------- Specification ----------

  function UDelta(num: nat, prev: nat): (d: nat)
    ensures d < RTP_SEQ_MOD
  {
    (num - prev) % RTP_SEQ_MOD
  }

  function Classified(s: Session, num: nat): SeqType {
    var d := UDelta(num, s.prev);
    if s.initial == 0 then Reset
    else if num == s.prev + 1 then Normal
    else if d < MAX_DROPOUT then Gap
    else if d <= RTP_SEQ_MOD - MAX_MISORDER then (if num == s.bad then Reset else Bad)
    else Dup
  }

  /** A packet within the permitted gap, with a smaller number: another cycle. */
  predicate Wraps(s: Session, num: nat) {
    s.initial != 0 && num != s.prev + 1 && UDelta(num, s.prev) < MAX_DROPOUT && num < s.prev
  }

  function Updated(s: Session, num: nat): Session {
    s.(initial := if s.initial == 0 then 1 else s.initial,
       cycles := if Wraps(s, num) then s.cycles + RTP_SEQ_MOD else s.cycles,
       bad := if Classified(s, num) == Bad then (num + 1) % RTP_SEQ_MOD else s.bad)
  }

  /**
   How far a packet gets after its number has been looked at: no payload, an error on the way, or
   played. Only an empty one returns 0 without being played; an error, a bad number or a
   duplicate returns -1, which ends the event loop, so that no packet follows it.
   */
  datatype Fate = Empty | Failed | Played

  function Received(s: Session, num: nat, fate: Fate): Session {
    var u := Updated(s, num);
    if fate == Empty || Classified(s, num).Bad? || Classified(s, num).Dup? then u else
    var v := u.(lost := if Classified(s, num).Gap? then (u.lost + u.cur - u.prev - 1) % LOSS_MOD else u.lost,
                cur := (u.cycles + num) % RTP_SEQ_MOD);
    if fate == Failed then v else v.(prev := v.cur)
  }

  // ---------- The receiver ----------

  class Receiver {
    var initial: nat
    var bad: nat
    var cycles: nat
    var cur: nat
    var prev: nat
    var lost: nat

    function Contents(): Session
      reads this
    {
      Session(initial, bad, cycles, cur, prev, lost)
    }

    constructor ()
      ensures Contents() == FRESH
    {
      initial, bad, cycles, cur, prev, lost := 0, 0, 0, 0, 0, 0;
    }

    /** update_seq. */
    method UpdateSeq(num: nat) returns (t: SeqType)
      requires num < RTP_SEQ_MOD
      modifies `initial, `bad, `cycles
      ensures t == Classified(old(Contents()), num) && Contents() == Updated(old(Contents()), num)
    {
      var udelta := UDelta(num, prev);
      if initial == 0 {
        initial := initial + 1;
        t := Reset;
      } else if num == prev + 1 {
        t := Normal;
      } else if udelta < MAX_DROPOUT {
        if num < prev {
          cycles := cycles + RTP_SEQ_MOD;
        }
        t := Gap;
      } else if udelta <= RTP_SEQ_MOD - MAX_MISORDER {
        if num == bad {
          t := Reset;
        } else {
          bad := (num + 1) % RTP_SEQ_MOD;
          t := Bad;
        }
      } else {
        t := Dup;
      }
    }

    /** The bookkeeping of receive_and_playout. */
    method ReceiveAndPlayout(num: nat, fate: Fate) returns (t: SeqType)
      requires num < RTP_SEQ_MOD
      modifies this
      ensures t == Classified(old(Contents()), num) && Contents() == Received(old(Contents()), num, fate)
    {
      t := UpdateSeq(num);
      if fate == Empty {
        return;
      }
      if t == Bad || t == Dup {
        return;
      }
      if t == Gap {
        lost := (lost + cur - prev - 1) % LOSS_MOD;
      }
      cur := (cycles + num) % RTP_SEQ_MOD;
      if fate == Failed {
        return;
      }
      prev := cur;
    }
  }

  // ---------- A sender that counts without bound ----------

  /** A packet: the sender's true count, of which 16 bits are sent, and its fate. */
  datatype Packet = Packet(count: nat, fate: Fate)

  function Wire(count: nat): (num: nat)
    ensures num < RTP_SEQ_MOD
  {
    count % RTP_SEQ_MOD
  }

  /** The count of the last packet played among the first n. */
  function LastPlayed(ps: seq<Packet>, n: nat): nat
    requires 0 < n <= |ps|
  {
    if ps[n - 1].fate == Played || n == 1 then ps[n - 1].count else LastPlayed(ps, n - 1)
  }

  function After(ps: seq<Packet>, n: nat): Session
    requires n <= |ps|
  {
    if n == 0 then FRESH else Received(After(ps, n - 1), Wire(ps[n - 1].count), ps[n - 1].fate)
  }

  /** The first packet is played, and every later one is less than MAX_DROPOUT ahead of the last played before it. */
  ghost predicate Steady(ps: seq<Packet>) {
    && ps != [] && ps[0].fate == Played
    && forall i :: 1 <= i < |ps| ==> 0 <= ps[i].count - LastPlayed(ps, i) < MAX_DROPOUT
  }

  /** Packet i starts a cycle that the last packet played before it had not reached, and is itself not played. */
  predicate DroppedWrap(ps: seq<Packet>, i: nat)
    requires 0 < i < |ps|
  {
    ps[i].fate != Played && ps[i].count / RTP_SEQ_MOD == LastPlayed(ps, i) / RTP_SEQ_MOD + 1
  }

  /** How many of the first n packets did that. */
  function WrapsDropped(ps: seq<Packet>, n: nat): nat
    requires 0 < n <= |ps|
  {
    if n == 1 then 0 else WrapsDropped(ps, n - 1) + if DroppedWrap(ps, n - 1) then 1 else 0
  }

  /** One step ahead of the last packet played: the 16-bit arithmetic sees the true distance. */
  lemma AheadIsSeen(last: nat, count: nat)
    requires 0 <= count - last < MAX_DROPOUT
    ensures UDelta(Wire(count), Wire(last)) == count - last
    ensures count / RTP_SEQ_MOD == last / RTP_SEQ_MOD + if Wire(count) < Wire(last) then 1 else 0
  {
    var q: int, r: int, p: int, t: int := count / RTP_SEQ_MOD, Wire(count), last / RTP_SEQ_MOD, Wire(last);
    assert count == q * RTP_SEQ_MOD + r && last == p * RTP_SEQ_MOD + t;
    assert 0 <= (q - p) * RTP_SEQ_MOD + (r - t) < MAX_DROPOUT;
    assert q == p || q == p + 1;
  }

  /** What holds after every packet: the last number played, and the cycles counted. */
  ghost predicate InStep(s: Session, first: nat, last: nat, drift: nat) {
    && s.initial == 1 && s.prev == Wire(last) && first <= last
    && s.cycles == RTP_SEQ_MOD * (last / RTP_SEQ_MOD - first / RTP_SEQ_MOD + drift)
  }

  lemma FirstIsInStep(count: nat)
    ensures InStep(Received(FRESH, Wire(count), Played), count, count, 0) && Classified(FRESH, Wire(count)) == Reset
  {
  }

  lemma CurIsSeq(k: nat, num: nat)
    requires num < RTP_SEQ_MOD
    ensures (RTP_SEQ_MOD * k + num) % RTP_SEQ_MOD == num
  {
  }

  /** A packet ahead is normal or a gap, never bad, a duplicate or a reset. */
  lemma StepIsInStep(s: Session, first: nat, last: nat, drift: nat, p: Packet)
    requires InStep(s, first, last, drift) && 0 <= p.count - last < MAX_DROPOUT
    ensures var num := Wire(p.count);
            && Classified(s, num) == (if p.count == last + 1 && num != 0 then Normal else Gap)
            && (Wraps(s, num) <==> p.count / RTP_SEQ_MOD == last / RTP_SEQ_MOD + 1)
            && (if p.fate == Played then InStep(Received(s, num, p.fate), first, p.count, drift)
                else InStep(Received(s, num, p.fate), first, last, drift + if Wraps(s, num) then 1 else 0))
  {
    AheadIsSeen(last, p.count);
    var num := Wire(p.count);
    var k := last / RTP_SEQ_MOD - first / RTP_SEQ_MOD + drift;
    CyclesGrow(k);
    CurIsSeq(k, num);
    CurIsSeq(k + 1, num);
  }

  lemma CyclesGrow(k: nat)
    ensures RTP_SEQ_MOD * k + RTP_SEQ_MOD == RTP_SEQ_MOD * (k + 1)
  {
  }

  lemma {:induction false} RunIsInStep(ps: seq<Packet>, n: nat)
    requires Steady(ps) && 0 < n <= |ps|
    ensures InStep(After(ps, n), ps[0].count, LastPlayed(ps, n), WrapsDropped(ps, n))
  {
    hide Classified, InStep, Received, Wire, Wraps;
    if n == 1 {
      FirstPacket(ps);
    } else {
      RunIsInStep(ps, n - 1);
      StepIsInStep(After(ps, n - 1), ps[0].count, LastPlayed(ps, n - 1), WrapsDropped(ps, n - 1), ps[n - 1]);
    }
  }

  lemma FirstPacket(ps: seq<Packet>)
    requires Steady(ps)
    ensures InStep(After(ps, 1), ps[0].count, LastPlayed(ps, 1), WrapsDropped(ps, 1))
  {
    assert After(ps, 0) == FRESH;
    FirstIsInStep(ps[0].count);
  }

  /** No packet after the first is taken for bad, a duplicate or a restart; the one that wraps is reported as a gap. */
  lemma NoneIsRejected(ps: seq<Packet>, n: nat)
    requires Steady(ps) && 0 < n < |ps|
    ensures Classified(After(ps, n), Wire(ps[n].count))
            == if ps[n].count == LastPlayed(ps, n) + 1 && Wire(ps[n].count) != 0 then Normal else Gap
  {
    hide InStep, After, Wire, WrapsDropped;
    RunIsInStep(ps, n);
    StepIsInStep(After(ps, n), ps[0].count, LastPlayed(ps, n), WrapsDropped(ps, n), ps[n]);
  }

  /** The offset between the unwrapped number and the true count. */
  function Offset(ps: seq<Packet>, n: nat): int
    requires 0 < n <= |ps|
  {
    After(ps, n).cycles + After(ps, n).prev - LastPlayed(ps, n)
  }

  /** Exactly: every wrap that was dropped after being counted adds a whole cycle. */
  lemma OffsetIs(ps: seq<Packet>, n: nat)
    requires Steady(ps) && 0 < n <= |ps|
    ensures Offset(ps, n) == RTP_SEQ_MOD * WrapsDropped(ps, n) - RTP_SEQ_MOD * (ps[0].count / RTP_SEQ_MOD)
  {
    hide After, LastPlayed, WrapsDropped;
    RunIsInStep(ps, n);
    var last, first, d := LastPlayed(ps, n), ps[0].count, WrapsDropped(ps, n);
    assert last == RTP_SEQ_MOD * (last / RTP_SEQ_MOD) + Wire(last);
    assert RTP_SEQ_MOD * (last / RTP_SEQ_MOD - first / RTP_SEQ_MOD + d)
           == RTP_SEQ_MOD * (last / RTP_SEQ_MOD) - RTP_SEQ_MOD * (first / RTP_SEQ_MOD) + RTP_SEQ_MOD * d;
  }

  lemma {:induction false} NoneDropped(ps: seq<Packet>, n: nat)
    requires 0 < n <= |ps|
    ensures WrapsDropped(ps, n) == 0 <==> forall i :: 1 <= i < n ==> !DroppedWrap(ps, i)
  {
    hide DroppedWrap;
    if n > 1 {
      NoneDropped(ps, n - 1);
    }
  }

  /**
   Across any number of wraps the offset is what it was at the first packet, if and only if no
   packet that started a cycle was lost to playing.
   */
  lemma OffsetIsConstant(ps: seq<Packet>, n: nat)
    requires Steady(ps) && 0 < n <= |ps|
    ensures Offset(ps, n) == Offset(ps, 1) <==> forall i :: 1 <= i < n ==> !DroppedWrap(ps, i)
  {
    hide After, LastPlayed, Steady, DroppedWrap;
    OffsetIs(ps, n);
    OffsetIs(ps, 1);
    NoneDropped(ps, n);
    assert RTP_SEQ_MOD * WrapsDropped(ps, n) == 0 <==> WrapsDropped(ps, n) == 0;
  }

  /** When every packet is played, it never moves. */
  lemma AllPlayedNoDrift(ps: seq<Packet>, n: nat)
    requires Steady(ps) && 0 < n <= |ps| && forall i :: 0 <= i < n ==> ps[i].fate == Played
    ensures Offset(ps, n) == Offset(ps, 1)
  {
    hide After, LastPlayed, Steady, Offset;
    OffsetIsConstant(ps, n);
  }

  /** The failing side: a packet without payload starts the second cycle, the next packet counts that cycle again. */
  lemma WrapIsCountedTwice()
    ensures var ps := [Packet(65535, Played), Packet(65536, Empty), Packet(65537, Played)];
            Steady(ps) && DroppedWrap(ps, 1) && Offset(ps, 1) == 0 && Offset(ps, 3) == RTP_SEQ_MOD
  {
    var ps := [Packet(65535, Played), Packet(65536, Empty), Packet(65537, Played)];
    assert LastPlayed(ps, 1) == 65535 && LastPlayed(ps, 2) == 65535;
    assert DroppedWrap(ps, 1) && !DroppedWrap(ps, 2);
    assert WrapsDropped(ps, 2) == 1 && WrapsDropped(ps, 3) == 1;
    OffsetIs(ps, 1);
    OffsetIs(ps, 3);
  }

  /** The signed 32-bit field holds the cycles as long as there were fewer than 2^15 wraps, dropped ones counted twice. */
  lemma CyclesFitTheirField(ps: seq<Packet>, n: nat)
    requires Steady(ps) && 0 < n <= |ps|
    ensures After(ps, n).cycles < 0x8000_0000
            <==> LastPlayed(ps, n) / RTP_SEQ_MOD - ps[0].count / RTP_SEQ_MOD + WrapsDropped(ps, n) < 0x8000
  {
    hide After, LastPlayed, WrapsDropped, Steady;
    RunIsInStep(ps, n);
  }

  // ---------- The loss counter ----------

  /** Packet i is played, and does not follow directly on the last one played or starts a cycle. */
  predicate PlayedAfterGap(ps: seq<Packet>, i: nat)
    requires 0 < i < |ps|
  {
    ps[i].fate == Played && !(ps[i].count == LastPlayed(ps, i) + 1 && Wire(ps[i].count) != 0)
  }

  function Gaps(ps: seq<Packet>, n: nat): nat
    requires 0 < n <= |ps|
  {
    if n == 1 then 0 else Gaps(ps, n - 1) + if PlayedAfterGap(ps, n - 1) then 1 else 0
  }

  /** The packets between those played. */
  function Missed(ps: seq<Packet>, n: nat): int
    requires 0 < n <= |ps|
  {
    if n == 1 then 0
    else Missed(ps, n - 1) + if ps[n - 1].fate == Played then ps[n - 1].count - LastPlayed(ps, n - 1) - 1 else 0
  }

  /** Unless a packet fails, the number at hand between packets is that of the last one played: the counter compares it with itself. */
  lemma {:induction false} HandIsPlayed(ps: seq<Packet>, n: nat)
    requires n <= |ps| && forall i :: 0 <= i < n ==> ps[i].fate != Failed
    ensures After(ps, n).cur == After(ps, n).prev
  {
    hide Classified, Wraps, Wire;
    if n > 0 {
      HandIsPlayed(ps, n - 1);
    }
  }

  lemma OneLess(lost: nat, gaps: nat)
    requires lost == (0 - gaps) % LOSS_MOD
    ensures (lost - 1) % LOSS_MOD == (0 - gaps - 1) % LOSS_MOD
  {
    var q: int := (0 - gaps) / LOSS_MOD;
    assert 0 - gaps == q * LOSS_MOD + lost;
    if lost == 0 {
      assert 0 - gaps - 1 == (q - 1) * LOSS_MOD + (LOSS_MOD - 1);
    } else {
      assert 0 - gaps - 1 == q * LOSS_MOD + (lost - 1);
    }
  }

  lemma LossStep(s: Session, num: nat, fate: Fate)
    requires s.cur == s.prev && fate != Failed && (Classified(s, num).Gap? || Classified(s, num).Normal?)
    ensures Received(s, num, fate).lost == if fate == Played && Classified(s, num).Gap? then (s.lost - 1) % LOSS_MOD else s.lost
  {
    hide Classified, Wraps;
  }

  /** So every gap takes one off the counter of lost packets, however many packets it lost. */
  lemma {:induction false} LossCounterIs(ps: seq<Packet>, n: nat)
    requires Steady(ps) && 0 < n <= |ps| && forall i :: 0 <= i < n ==> ps[i].fate != Failed
    ensures After(ps, n).lost == (0 - Gaps(ps, n)) % LOSS_MOD
  {
    hide Classified, Received, Wire, Steady, LastPlayed;
    if n == 1 {
      FirstLosesNothing(ps);
    } else {
      LossCounterIs(ps, n - 1);
      HandIsPlayed(ps, n - 1);
      NoneIsRejected(ps, n - 1);
      LossStep(After(ps, n - 1), Wire(ps[n - 1].count), ps[n - 1].fate);
      OneLess(After(ps, n - 1).lost, Gaps(ps, n - 1));
    }
  }

  lemma FirstLosesNothing(ps: seq<Packet>)
    requires Steady(ps)
    ensures After(ps, 1).lost == 0
  {
    assert After(ps, 0) == FRESH;
  }

  /** Packets in order, each later than the last one played. */
  ghost predicate InOrder(ps: seq<Packet>) {
    forall i :: 1 <= i < |ps| ==> ps[i].count > LastPlayed(ps, i)
  }

  lemma {:induction false} MissedOnlyInGaps(ps: seq<Packet>, n: nat)
    requires InOrder(ps) && 0 < n <= |ps|
    ensures Missed(ps, n) >= 0 && (Gaps(ps, n) == 0 ==> Missed(ps, n) == 0)
  {
    hide LastPlayed, Wire;
    if n > 1 {
      MissedOnlyInGaps(ps, n - 1);
    }
  }

  /** It counts the packets missed if and only if there was no gap at all. */
  lemma LossCounterIsRight(ps: seq<Packet>, n: nat)
    requires Steady(ps) && InOrder(ps) && 0 < n <= |ps| && forall i :: 0 <= i < n ==> ps[i].fate != Failed
    requires Missed(ps, n) + Gaps(ps, n) < LOSS_MOD
    ensures After(ps, n).lost == Missed(ps, n) <==> forall i :: 1 <= i < n ==> !PlayedAfterGap(ps, i)
  {
    hide After, Steady, InOrder, LastPlayed, PlayedAfterGap;
    LossCounterIs(ps, n);
    MissedOnlyInGaps(ps, n);
    NoGaps(ps, n);
  }

  lemma {:induction false} NoGaps(ps: seq<Packet>, n: nat)
    requires 0 < n <= |ps|
    ensures Gaps(ps, n) == 0 <==> forall i :: 1 <= i < n ==> !PlayedAfterGap(ps, i)
  {
    hide PlayedAfterGap;
    if n > 1 {
      NoGaps(ps, n - 1);
    }
  }

  // ---------- Packets that are not ahead ----------

  lemma BehindIsSeen(last: nat, count: nat)
    requires 0 < last - count < RTP_SEQ_MOD
    ensures UDelta(Wire(count), Wire(last)) == RTP_SEQ_MOD - (last - count)
  {
    var q: int, r: int, p: int, t: int := count / RTP_SEQ_MOD, Wire(count), last / RTP_SEQ_MOD, Wire(last);
    assert count == q * RTP_SEQ_MOD + r && last == p * RTP_SEQ_MOD + t;
    assert 0 < (p - q) * RTP_SEQ_MOD + (t - r) < RTP_SEQ_MOD;
    assert p == q || p == q + 1;
  }

  /**
   A packet from the past: the last one again counts as a gap, one less than 100 packets late as
   a duplicate, and what is later than that ends the reception, unless it follows on the packet
   that was bad before.
   */
  lemma LatePackets(s: Session, first: nat, last: nat, drift: nat, count: nat)
    requires InStep(s, first, last, drift) && count <= last <= count + RTP_SEQ_MOD - MAX_DROPOUT
    ensures Classified(s, Wire(count)) == if count == last then Gap
                                          else if last - count < MAX_MISORDER then Dup
                                          else if Wire(count) == s.bad then Reset else Bad
  {
    hide Wire;
    if count < last {
      BehindIsSeen(last, count);
    } else {
      AheadIsSeen(last, count);
    }
  }

  /** A sender that starts anew is let in with its second packet, if the two are in order: the first is bad, the next a restart. */
  lemma RestartTakesTwo(s: Session, num: nat, other: nat)
    requires num < RTP_SEQ_MOD && s.prev < RTP_SEQ_MOD && s.initial != 0 && Classified(s, num) == Bad && other < RTP_SEQ_MOD
    requires MAX_DROPOUT <= UDelta(other, s.prev) <= RTP_SEQ_MOD - MAX_MISORDER && other != s.prev + 1
    ensures Classified(Updated(s, num), other) == if other == (num + 1) % RTP_SEQ_MOD then Reset else Bad
  {
  }

  /** A cycle is counted exactly at a gap to a smaller number; nothing else that a packet does moves the cycles. */
  lemma CyclesMoveInGaps(s: Session, num: nat, fate: Fate)
    requires num < RTP_SEQ_MOD
    ensures Received(s, num, fate).cycles == s.cycles + if Classified(s, num) == Gap && num < s.prev then RTP_SEQ_MOD else 0
  {
  }
}
