/** Counting past failures inside a trailing window of time. */
module SlidingWindow {

  /** The times strictly after the cutoff, in order. */
  function After(times: seq<int>, cutoff: int): (kept: seq<int>)
    ensures |kept| <= |times|
  {
    if times == [] then []
    else
      var n := |times| - 1;
      var kept := After(times[..n], cutoff);
      if times[n] > cutoff then kept + [times[n]] else kept
  }

  /** How many times are at or after the cutoff. */
  function CountFrom(times: seq<int>, cutoff: int): nat {
    if times == [] then 0
    else
      var n := |times| - 1;
      CountFrom(times[..n], cutoff) + if times[n] >= cutoff then 1 else 0
  }

  function CountAt(times: seq<int>, t: int): nat {
    if times == [] then 0
    else
      var n := |times| - 1;
      CountAt(times[..n], t) + if times[n] == t then 1 else 0
  }

  lemma AfterAppend(times: seq<int>, t: int, cutoff: int)
    ensures After(times + [t], cutoff) == if t > cutoff then After(times, cutoff) + [t] else After(times, cutoff)
  {
    assert (times + [t])[..|times|] == times;
  }

  /** Dropping what an earlier cutoff excludes loses nothing a later one would keep. */
  lemma {:induction false} AfterTwice(times: seq<int>, early: int, late: int)
    requires early <= late
    ensures After(After(times, early), late) == After(times, late)
    decreases |times|
  {
    if times != [] {
      var n := |times| - 1;
      AfterTwice(times[..n], early, late);
      if times[n] > early {
        AfterAppend(After(times[..n], early), times[n], late);
      }
    }
  }

  /** The two ways of cutting the window differ by the times lying exactly on the cutoff. */
  lemma {:induction false} CutoffsDifferBy(times: seq<int>, cutoff: int)
    ensures CountFrom(times, cutoff) == |After(times, cutoff)| + CountAt(times, cutoff)
    decreases |times|
  {
    if times != [] {
      CutoffsDifferBy(times[..|times| - 1], cutoff);
    }
  }

  /** The strict and the inclusive window give the same verdict except when the failures on
      the cutoff are the ones that reach the limit. */
  lemma VerdictsAgreeIff(times: seq<int>, cutoff: int, limit: int)
    ensures (|After(times, cutoff)| >= limit <==> CountFrom(times, cutoff) >= limit)
       <==> !(|After(times, cutoff)| < limit <= |After(times, cutoff)| + CountAt(times, cutoff))
  {
    CutoffsDifferBy(times, cutoff);
  }

  predicate SameVerdict(a: nat, b: nat, limit: int) {
    a >= limit <==> b >= limit
  }

  /** They give the same verdict whatever the limit exactly when no failure lies on the cutoff. */
  lemma EveryVerdictAgreesIff(times: seq<int>, cutoff: int)
    ensures (forall limit :: SameVerdict(|After(times, cutoff)|, CountFrom(times, cutoff), limit))
       <==> CountAt(times, cutoff) == 0
  {
    CutoffsDifferBy(times, cutoff);
    var most := CountFrom(times, cutoff);
    assert CountAt(times, cutoff) > 0 ==> !SameVerdict(|After(times, cutoff)|, most, most);
  }

  /** Times are whole: at or after the cutoff is strictly after the instant before it. */
  lemma {:induction false} InclusiveIsStrict(times: seq<int>, cutoff: int)
    ensures CountFrom(times, cutoff) == |After(times, cutoff - 1)|
    decreases |times|
  {
    if times != [] {
      InclusiveIsStrict(times[..|times| - 1], cutoff);
    }
  }

  lemma {:induction false} AfterShrinks(times: seq<int>, early: int, late: int)
    requires early <= late
    ensures |After(times, late)| <= |After(times, early)|
    decreases |times|
  {
    AfterTwice(times, early, late);
  }
}
