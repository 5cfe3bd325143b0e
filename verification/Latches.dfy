/** A flag that remembers: set by some signals, reset by others, and kept by the rest. */
module Latches {
  datatype Signal = Set | Reset | Keep

  predicate NotReset(s: seq<Signal>, from: nat) {
    forall k :: from <= k < |s| ==> s[k] != Reset
  }

  /** It was set at some point and has not been reset since. */
  ghost predicate Latched(s: seq<Signal>) {
    exists j :: 0 <= j < |s| && s[j] == Set && NotReset(s, j + 1)
  }

  /** One more signal. */
  lemma {:induction false} LatchStep(s: seq<Signal>)
    requires |s| > 0
    ensures var prior, last := s[..|s| - 1], s[|s| - 1];
            Latched(s) <==> last == Set || (last == Keep && Latched(prior))
  {
    var prior, last := s[..|s| - 1], s[|s| - 1];
    if last == Set {
      assert NotReset(s, |s|);
    }
    if last == Keep && Latched(prior) {
      var j :| 0 <= j < |prior| && prior[j] == Set && NotReset(prior, j + 1);
      assert s[j] == Set && NotReset(s, j + 1);
    }
    if Latched(s) && last != Set {
      var j :| 0 <= j < |s| && s[j] == Set && NotReset(s, j + 1);
      assert s[|s| - 1] != Reset;
      assert prior[j] == Set && NotReset(prior, j + 1);
    }
  }
}
