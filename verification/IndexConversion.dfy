/**
 iCBConstruct.c, index_conv_enc and index_conv_dec: the second and third codebook indices of
 the first subframe are folded into seven bits, because their search range is shorter.
 */
module IndexConversion {
  import opened Constants
  import opened SearchSpec
  import opened StagedSearch

  function Folded(i: nat): nat {
    if 108 <= i < 172 then i - 64 else if i >= 236 then i - 128 else i
  }

  function Unfolded(i: nat): nat {
    if 44 <= i < 108 then i + 64 else if 108 <= i < 128 then i + 128 else i
  }

  /** The indices that survive: those that a stage with range 44 reaches, and no others. */
  lemma FoldingSurvives(i: nat)
    ensures Folded(i) < 128 && Unfolded(Folded(i)) == i <==> Reachable(i, CB_MEML, SUBL, SearchRange(1, 1))
  {
  }

  /** Every seven bits stand for a reachable index, and for one only. */
  lemma UnfoldingIsOnto(j: nat)
    requires j < 128
    ensures Reachable(Unfolded(j), CB_MEML, SUBL, SearchRange(1, 1)) && Folded(Unfolded(j)) == j
  {
  }

  /** All the indices of a frame, with entries 1 and 2 folded. */
  function FoldedAll(index: seq<nat>): (r: seq<nat>)
    requires |index| >= CB_NSTAGES
    ensures |r| == |index|
  {
    index[1 := Folded(index[1])][2 := Folded(index[2])]
  }

  function UnfoldedAll(index: seq<nat>): (r: seq<nat>)
    requires |index| >= CB_NSTAGES
    ensures |r| == |index|
  {
    index[1 := Unfolded(index[1])][2 := Unfolded(index[2])]
  }

  /** The decoder undoes the folding exactly when both indices are reachable by the stages that chose them. */
  lemma ConversionRoundTrip(index: seq<nat>)
    requires |index| >= CB_NSTAGES
    ensures (forall k :: 1 <= k < CB_NSTAGES ==> Reachable(index[k], CB_MEML, SUBL, SearchRange(1, k)))
            <==> FoldedAll(index)[1] < 128 && FoldedAll(index)[2] < 128 && UnfoldedAll(FoldedAll(index)) == index
  {
    FoldingSurvives(index[1]);
    FoldingSurvives(index[2]);
    var r := UnfoldedAll(FoldedAll(index));
    assert r[1] == Unfolded(Folded(index[1])) && r[2] == Unfolded(Folded(index[2]));
  }

  /** index_conv_enc. */
  method IndexConvEnc(index: array<nat>)
    requires index.Length >= CB_NSTAGES
    modifies index
    ensures index[..] == FoldedAll(old(index[..]))
  {
    for k := 1 to CB_NSTAGES
      invariant forall i :: 0 <= i < index.Length ==>
                  index[i] == if 1 <= i < k then Folded(old(index[i])) else old(index[i])
    {
      if 108 <= index[k] < 172 {
        index[k] := index[k] - 64;
      } else if index[k] >= 236 {
        index[k] := index[k] - 128;
      }
    }
  }

  /** index_conv_dec. */
  method IndexConvDec(index: array<nat>)
    requires index.Length >= CB_NSTAGES
    modifies index
    ensures index[..] == UnfoldedAll(old(index[..]))
  {
    for k := 1 to CB_NSTAGES
      invariant forall i :: 0 <= i < index.Length ==>
                  index[i] == if 1 <= i < k then Unfolded(old(index[i])) else old(index[i])
    {
      if 44 <= index[k] < 108 {
        index[k] := index[k] + 64;
      } else if 108 <= index[k] < 128 {
        index[k] := index[k] + 128;
      }
    }
  }
}
