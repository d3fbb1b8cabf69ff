/** A log of bounded length: appending to a full one drops its oldest entry. */
module Bounded {
  import opened Wrappers

  function Append<T>(log: seq<T>, x: T, max: nat): seq<T> {
    if |log| >= max && log != [] then log[1..] + [x] else log + [x]
  }

  function AppendAll<T>(xs: seq<T>, max: nat): seq<T> {
    if xs == [] then [] else Append(AppendAll(xs[..|xs| - 1], max), xs[|xs| - 1], max)
  }

  /** The last n elements, or all when there are fewer. */
  function Last<T>(xs: seq<T>, n: nat): seq<T> {
    xs[Max(0, |xs| - n)..]
  }

  /** Appending to the newest entries keeps the newest. */
  lemma AppendLast<T>(xs: seq<T>, x: T, max: nat)
    requires max > 0
    ensures Append(Last(xs, max), x, max) == Last(xs + [x], max)
  {
    if |xs| < max {
      assert Last(xs, max) == xs && Last(xs + [x], max) == xs + [x];
    } else {
      assert Last(xs, max)[1..] + [x] == Last(xs + [x], max);
    }
  }

  /** However many entries are appended, exactly the newest ones are there, in order. */
  lemma {:induction false} KeepsNewest<T>(xs: seq<T>, max: nat)
    requires max > 0
    ensures AppendAll(xs, max) == Last(xs, max)
  {
    if xs != [] {
      var init, x := xs[..|xs| - 1], xs[|xs| - 1];
      KeepsNewest(init, max);
      AppendLast(init, x, max);
      assert xs == init + [x];
      hide Append, Last;
    }
  }
}
