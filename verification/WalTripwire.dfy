/** The WAL-size tripwire: one warning per crossing, a gauge that never goes backwards to a
    guess, and a counter of the samples that told nothing. */
module WalTripwire {
  import opened Wrappers

  const WARN_BYTES := 64 * 1024 * 1024

  /** What one stat of the sidecar finds. */
  datatype Sample = Missing | StatError | Size(bytes: nat) {
    predicate Over() {
      Size? && bytes > WARN_BYTES
    }
  }

  /** A maximal run of consecutive over-limit samples begins here: any other sample, a stat
      error included, ends one. */
  predicate RunStarts(samples: seq<Sample>, i: int) {
    0 <= i < |samples| && samples[i].Over() && (i > 0 ==> !samples[i - 1].Over())
  }

  function Starts(samples: seq<Sample>): set<int> {
    set i | 0 <= i < |samples| && RunStarts(samples, i)
  }

  function Errors(samples: seq<Sample>): set<int> {
    set i | 0 <= i < |samples| && samples[i].StatError?
  }

  /** The latest sample that was not a stat error. */
  function LastReading(samples: seq<Sample>): Option<nat> {
    if samples == [] then None
    else
      match samples[|samples| - 1]
      case Missing => Some(0)
      case StatError => LastReading(samples[..|samples| - 1])
      case Size(bytes) => Some(bytes)
  }

  class Tripwire {
    var gauge: Option<nat>
    var errors: nat
    var warnings: nat

    constructor ()
      ensures gauge == None && errors == 0 && warnings == 0
    {
      gauge, errors, warnings := None, 0, 0;
    }

    /** One check; suppressed when the previous one tripped too. */
    method Check(s: Sample, suppress: bool) returns (tripped: bool)
      modifies this
      ensures tripped <==> s.Over()
      ensures gauge == match s { case Missing => Some(0) case StatError => old(gauge) case Size(bytes) => Some(bytes) }
      ensures errors == old(errors) + if s.StatError? then 1 else 0
      ensures warnings == old(warnings) + if s.Over() && !suppress then 1 else 0
    {
      match s {
        case Missing =>
          gauge := Some(0);
          return false;
        case StatError =>
          errors := errors + 1;
          return false;
        case Size(bytes) =>
          gauge := Some(bytes);
          if bytes <= WARN_BYTES {
            return false;
          }
          if suppress {
            return true;
          }
          warnings := warnings + 1;
          return true;
      }
    }

    /** Over any sequence of samples: as many warnings as maximal over-limit runs, a gauge
        that holds the last reading, and an error count of exactly the failed stats. */
    method Run(samples: seq<Sample>)
      requires gauge == None && errors == 0 && warnings == 0
      modifies this
      ensures warnings == |Starts(samples)| && errors == |Errors(samples)| && gauge == LastReading(samples)
    {
      var wasTripped := false;
      for i := 0 to |samples|
        invariant warnings == |Starts(samples[..i])| && errors == |Errors(samples[..i])| &&
                  gauge == LastReading(samples[..i])
        invariant wasTripped <==> i > 0 && samples[i - 1].Over()
      {
        OneMore(samples, i);
        wasTripped := Check(samples[i], wasTripped);
      }
      assert samples[..|samples|] == samples;
    }
  }

  /** The limit itself, 64 MiB, does not trip. */
  lemma TripsAbove(bytes: nat)
    ensures Size(bytes).Over() <==> bytes >= 67_108_865
  {
  }

  lemma OneMore(samples: seq<Sample>, i: nat)
    requires i < |samples|
    ensures Starts(samples[..i + 1]) == Starts(samples[..i]) + if RunStarts(samples, i) then {i} else {}
    ensures Errors(samples[..i + 1]) == Errors(samples[..i]) + if samples[i].StatError? then {i} else {}
    ensures i !in Starts(samples[..i]) && i !in Errors(samples[..i])
    ensures samples[..i + 1][..i] == samples[..i]
  {
    assert forall j :: 0 <= j < i ==> (RunStarts(samples[..i + 1], j) <==> RunStarts(samples[..i], j));
  }
}
