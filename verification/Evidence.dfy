/** What the observation buffer reports, defined on the plain list of observations that
    arrived since the last reset. */
module Evidence {
  import opened MachineInts
  import opened OrderStatistics

  datatype Observation = Observation(error: int, time: uint32)

  type Window = seq<Observation>

  function Errors(w: Window): (errors: seq<int>)
    ensures |errors| == |w|
  {
    seq(|w|, i requires 0 <= i < |w| => w[i].error)
  }

  /** The upper median, or zero if as many errors point right as left. */
  function MedianOf(errors: seq<int>): int {
    if Positives(errors) == Negatives(errors) then 0 else Sort(errors)[|errors| / 2]
  }

  /** Unless the signs balance, the median is the upper middle value: it is below v exactly when
      more than half of the errors, rounded down, are. */
  lemma {:induction false} MedianIsUpperMiddle(errors: seq<int>, v: int)
    ensures if Positives(errors) == Negatives(errors) then MedianOf(errors) == 0
            else MedianOf(errors) < v <==> |errors| / 2 < Below(errors, v)
  {
    if errors != [] {
      OrderStatistic(errors, |errors| / 2, v);
    }
  }

  function Median(w: Window): int {
    MedianOf(Errors(w))
  }

  function Sum(s: seq<int>): int {
    if s == [] then 0 else Sum(s[..|s| - 1]) + s[|s| - 1]
  }

  /** The last n elements. */
  function Last<T>(s: seq<T>, n: nat): (r: seq<T>)
    ensures |r| == Min(n, |s|)
  {
    s[|s| - Min(n, |s|)..]
  }

  /** getSmoothedCurrentError. */
  function SmoothedError(window: nat, w: Window): int {
    var recent := Last(Errors(w), window);
    if recent == [] then 0 else TruncDiv(Sum(recent), |recent|)
  }

  /** getOmega: the rate at which the error falls over the last robust observations. */
  function Omega(robust: nat, w: Window): real {
    RateOver(Last(w, robust))
  }

  function RateOver(recent: Window): real {
    if |recent| < 2 || recent[|recent| - 1].time <= recent[0].time then 0.0
    else Rate(recent[|recent| - 1].error - recent[0].error, recent[|recent| - 1].time - recent[0].time)
  }

  /** Degrees per second toward the target, for a change of the error over milliseconds. */
  function Rate(change: int, span: nat): real
    requires span > 0
  {
    -(change as real * 1000.0 / span as real)
  }

  lemma {:induction false} RateOverEnds(recent: Window)
    requires |recent| >= 2 && recent[|recent| - 1].time > recent[0].time
    ensures RateOver(recent) == Rate(recent[|recent| - 1].error - recent[0].error,
                                     recent[|recent| - 1].time - recent[0].time)
  {
  }

  /** Omega looks at the first and the last of the robust samples. */
  lemma {:induction false} OmegaOfEnds(robust: nat, w: Window)
    requires Min(|w|, robust) >= 2
    ensures var first, last := w[|w| - Min(|w|, robust)], w[|w| - 1];
            Omega(robust, w) == if last.time <= first.time then 0.0
                                else Rate(last.error - first.error, last.time - first.time)
  {
    hide Rate;
    var recent := Last(w, robust);
    assert recent[0] == w[|w| - |recent|] && recent[|recent| - 1] == w[|w| - 1];
  }

  lemma {:induction false} OmegaOfFew(robust: nat, w: Window)
    requires Min(|w|, robust) < 2
    ensures Omega(robust, w) == 0.0
  {
  }

  lemma {:induction false} MotionIsMeasured(recent: Window)
    requires RateOver(recent) != 0.0
    ensures |recent| >= 2 && recent[0].time < recent[|recent| - 1].time
  {
    hide Rate;
  }

  /** update: a window that reaches the active capacity is consumed at once. */
  function Observe(capacity: nat, w: Window, o: Observation): (r: Window)
    ensures capacity >= 1 ==> |r| < capacity
  {
    var kept := if |w| >= capacity then [] else w;
    if |kept| + 1 >= capacity then [] else kept + [o]
  }
}
