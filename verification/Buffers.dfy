/** Writing a run of values into the middle of a buffer, as the codec does through pointers. */
module Buffers {

  /** `now` is `was` with the values of `part` written from position `at` on. */
  ghost predicate Overwritten<T(!new)>(now: seq<T>, was: seq<T>, at: nat, part: seq<T>) {
    && at + |part| <= |was| == |now|
    && forall p {:trigger now[p]} :: 0 <= p < |now| ==>
         now[p] == if at <= p < at + |part| then part[p - at] else was[p]
  }

  /** What was written reads back; everything else is as before. */
  lemma OverwrittenReads<T(!new)>(now: seq<T>, was: seq<T>, at: nat, part: seq<T>)
    requires Overwritten(now, was, at, part)
    ensures now == was[..at] + part + was[at + |part|..]
    ensures now[at..at + |part|] == part
  {
  }

  /** Two parts written one behind the other are one part. */
  lemma OverwrittenTwice<T(!new)>(now: seq<T>, before: seq<T>, was: seq<T>, at: nat, p: seq<T>, q: seq<T>)
    requires Overwritten(before, was, at, p) && Overwritten(now, before, at + |p|, q)
    ensures Overwritten(now, was, at, p + q)
  {
  }
}
