/** The diagnostic trace of a root search: one entry per iteration, holding
    the points evaluated in that iteration and the function values there. */
module ConvergenceLogging {

  datatype IterationEntry = IterationEntry(iteration: nat, x: seq<real>, fx: seq<real>)

  /** Every entry pairs each point with exactly one function value. */
  predicate WellFormed(entries: seq<IterationEntry>) {
    forall k :: 0 <= k < |entries| ==> |entries[k].x| == |entries[k].fx|
  }

  /** Logging one batch of entries after another leaves the same entries
      as logging the two batches joined, in order. */
  lemma LogTwice(done: seq<IterationEntry>, logged: seq<IterationEntry>, rest: seq<IterationEntry>)
    ensures done + (logged + rest) == (done + logged) + rest
  {
  }

  class ConvergenceLog {
    var iterations: seq<IterationEntry>

    ghost predicate Valid()
      reads this
    {
      WellFormed(iterations)
    }

    /** ConvergenceLog::new: an empty log. */
    constructor ()
      ensures Valid() && iterations == []
    {
      iterations := [];
    }

    /** The Default implementation, which delegates to new. */
    constructor Default()
      ensures Valid() && iterations == []
    {
      iterations := [];
    }

    /** Appends one entry; the source asserts that x and fx have equal
        length and panics otherwise. */
    method AddEntry(iteration: nat, x: seq<real>, fx: seq<real>)
      requires Valid()
      requires |x| == |fx|
      modifies this
      ensures Valid()
      ensures iterations == old(iterations) + [IterationEntry(iteration, x, fx)]
    {
      iterations := iterations + [IterationEntry(iteration, x, fx)];
    }

    /** The logged entries, oldest first; the log is left as it is. */
    method GetEntries() returns (entries: seq<IterationEntry>)
      requires Valid()
      ensures entries == iterations
      ensures WellFormed(entries)
    {
      entries := iterations;
    }

    /** Clears the log for reuse, whatever it held. */
    method Reset()
      modifies this
      ensures Valid() && iterations == []
    {
      iterations := [];
    }
  }
}
