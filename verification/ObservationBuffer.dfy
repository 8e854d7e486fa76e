/** The evidence buffer of the controller: three fixed arrays and a counter, updated in place,
    proved to hold exactly the list of observations since the last reset. */
module ObservationBuffers {
  import opened MachineInts
  import opened RegulationConfig
  import opened OrderStatistics
  import opened Evidence

  /** The std::sort of the first n elements. Sorted permutations are unique, so any sorting
      algorithm leaves the same array behind. */
  method SortPrefix(a: array<int>, n: nat)
    requires n <= a.Length
    modifies a
    ensures a[..n] == Sort(old(a[..n])) && a[n..] == old(a[n..])
  {
    ghost var was := a[..];
    for i := 0 to n
      invariant a[..i] == Sort(was[..i]) && a[i..] == was[i..]
    {
      ghost var front := a[..i];
      SortIsSortedPermutation(was[..i]);
      SiftDown(a, i);
      assert was[..i + 1][..i] == was[..i];
    }
    assert was[..n] == old(a[..n]);
  }

  /** Moves a[i] down into the sorted prefix before it. */
  method SiftDown(a: array<int>, i: nat)
    requires i < a.Length && Sorted(a[..i])
    modifies a
    ensures a[..i + 1] == Insert(old(a[..i]), old(a[i])) && a[i + 1..] == old(a[i + 1..])
  {
    hide Insert;
    ghost var front, x := a[..i], a[i];
    var j := i;
    while j > 0 && a[j - 1] > a[j]
      invariant 0 <= j <= i
      invariant forall k :: 0 <= k < j ==> a[k] == front[k]
      invariant a[j] == x
      invariant forall k :: j < k <= i ==> a[k] == front[k - 1]
      invariant forall k :: i < k < a.Length ==> a[k] == old(a[k])
      invariant forall k :: j <= k < i ==> front[k] > x
    {
      a[j - 1], a[j] := a[j], a[j - 1];
      j := j - 1;
    }
    assert a[..i + 1] == front[..j] + [x] + front[j..];
    InsertAt(front, x, j);
  }

  lemma {:induction false} InsertAt(s: seq<int>, x: int, j: nat)
    requires j <= |s|
    requires j > 0 ==> s[j - 1] <= x
    requires forall k :: j <= k < |s| ==> s[k] > x
    ensures Insert(s, x) == s[..j] + [x] + s[j..]
  {
    hide Insert;
    if j < |s| {
      var front, last := s[..|s| - 1], s[|s| - 1];
      InsertSkips(s, x);
      InsertAt(front, x, j);
      assert front[..j] == s[..j];
      assert s[j..] == front[j..] + [last];
    } else {
      InsertAtEnd(s, x);
      assert s[..j] == s && s[j..] == [];
    }
  }

  lemma {:induction false} InsertSkips(s: seq<int>, x: int)
    requires s != [] && s[|s| - 1] > x
    ensures Insert(s, x) == Insert(s[..|s| - 1], x) + [s[|s| - 1]]
  {
  }

  class ObservationBuffer {
    const config: Config
    const medianArray: array<int>
    const meanArray: array<int>
    const timeArray: array<uint32>
    var writtenErrorsCounter: nat
    var medianIndex: nat
    var median: int

    ghost function Repr(): set<object> {
      {this, medianArray, meanArray, timeArray}
    }

    ghost predicate Valid()
      reads Repr()
    {
      && Shaped()
      && writtenErrorsCounter <= config.ActiveBufferSize()
      && medianArray[..writtenErrorsCounter] == Sort(meanArray[..writtenErrorsCounter])
      && median == MedianOf(meanArray[..writtenErrorsCounter])
      && ZeroFrom(writtenErrorsCounter)
    }

    ghost predicate Shaped() {
      && medianArray.Length == meanArray.Length == timeArray.Length == OBSERVATION_BUFFER_SIZE
      && medianArray != meanArray && medianArray as object != timeArray && meanArray as object != timeArray
    }

    /** Every slot past the count is zero. */
    ghost predicate ZeroFrom(n: nat)
      requires Shaped()
      reads Repr()
    {
      forall i :: n <= i < OBSERVATION_BUFFER_SIZE ==>
        medianArray[i] == 0 && meanArray[i] == 0 && timeArray[i] == 0
    }

    /** The list of observations the arrays stand for. */
    ghost function Window(): (w: Window)
      requires Shaped() && writtenErrorsCounter <= OBSERVATION_BUFFER_SIZE
      reads this, Repr()
      ensures |w| == writtenErrorsCounter
      ensures Errors(w) == meanArray[..writtenErrorsCounter]
    {
      Zip(meanArray[..writtenErrorsCounter], timeArray[..writtenErrorsCounter])
    }

    constructor (config: Config)
      ensures Valid() && fresh(Repr()) && this.config == config && Window() == []
    {
      this.config := config;
      medianArray := new int[OBSERVATION_BUFFER_SIZE](_ => 0);
      meanArray := new int[OBSERVATION_BUFFER_SIZE](_ => 0);
      timeArray := new uint32[OBSERVATION_BUFFER_SIZE](_ => 0);
      writtenErrorsCounter, medianIndex, median := 0, 0, 0;
    }

    method Reset()
      requires Shaped()
      modifies Repr()
      ensures Valid() && Window() == []
    {
      for i := 0 to OBSERVATION_BUFFER_SIZE
        invariant forall k :: 0 <= k < i ==>
          medianArray[k] == 0 && meanArray[k] == 0 && timeArray[k] == 0
      {
        medianArray[i], meanArray[i], timeArray[i] := 0, 0, 0;
      }
      writtenErrorsCounter, medianIndex, median := 0, 0, 0;
    }

    method Update(error: int, loopTimestamp: uint32)
      requires Valid()
      modifies Repr()
      ensures Valid() && Window() == Observe(config.ActiveBufferSize(), old(Window()), Observation(error, loopTimestamp))
    {
      hide Sort, Positives, Negatives, Zip;
      var activeBufferSize := config.ActiveBufferSize();
      if writtenErrorsCounter >= activeBufferSize {
        Reset();
      }
      Append(error, loopTimestamp);
      medianIndex := writtenErrorsCounter / 2;
      median := medianArray[medianIndex];
      var negativeValues, positiveValues := CountSigns();
      if positiveValues == negativeValues {
        median := 0;
      }
      if writtenErrorsCounter >= activeBufferSize {
        Reset();
      }
    }

    /** The part of update that stores the observation and sorts. */
    method Append(error: int, loopTimestamp: uint32)
      requires Valid() && writtenErrorsCounter < config.ActiveBufferSize()
      modifies Repr()
      ensures Shaped() && writtenErrorsCounter == old(writtenErrorsCounter) + 1
      ensures Window() == old(Window()) + [Observation(error, loopTimestamp)]
      ensures medianArray[..writtenErrorsCounter] == Sort(meanArray[..writtenErrorsCounter])
      ensures ZeroFrom(writtenErrorsCounter)
    {
      hide Sort, MedianOf;
      ghost var sorted, arrived, times := medianArray[..writtenErrorsCounter], meanArray[..writtenErrorsCounter],
        timeArray[..writtenErrorsCounter];
      medianArray[writtenErrorsCounter] := error;
      meanArray[writtenErrorsCounter] := error;
      timeArray[writtenErrorsCounter] := loopTimestamp;
      writtenErrorsCounter := writtenErrorsCounter + 1;
      assert medianArray[..writtenErrorsCounter] == sorted + [error];
      assert meanArray[..writtenErrorsCounter] == arrived + [error];
      assert timeArray[..writtenErrorsCounter] == times + [loopTimestamp];
      SortAfterSort(arrived, error);
      assert Window() == Zip(arrived, times) + [Observation(error, loopTimestamp)];
      SortMedians();
    }

    method SortMedians()
      requires Shaped() && writtenErrorsCounter <= OBSERVATION_BUFFER_SIZE
      requires ZeroFrom(writtenErrorsCounter)
      modifies medianArray
      ensures medianArray[..writtenErrorsCounter] == Sort(old(medianArray[..writtenErrorsCounter]))
      ensures ZeroFrom(writtenErrorsCounter)
    {
      SortPrefix(medianArray, writtenErrorsCounter);
      forall i | writtenErrorsCounter <= i < OBSERVATION_BUFFER_SIZE
        ensures medianArray[i] == 0
      {
        assert medianArray[i] == medianArray[writtenErrorsCounter..][i - writtenErrorsCounter];
      }
    }

    method CountSigns() returns (negativeValues: nat, positiveValues: nat)
      requires Shaped() && writtenErrorsCounter <= OBSERVATION_BUFFER_SIZE
      requires medianArray[..writtenErrorsCounter] == Sort(meanArray[..writtenErrorsCounter])
      ensures negativeValues == Negatives(meanArray[..writtenErrorsCounter])
      ensures positiveValues == Positives(meanArray[..writtenErrorsCounter])
    {
      negativeValues, positiveValues := 0, 0;
      for i := 0 to writtenErrorsCounter
        invariant negativeValues == Below(medianArray[..i], 0)
        invariant positiveValues == i - Below(medianArray[..i], 1)
      {
        assert medianArray[..i + 1][..i] == medianArray[..i];
        if medianArray[i] < 0 {
          negativeValues := negativeValues + 1;
        } else if medianArray[i] > 0 {
          positiveValues := positiveValues + 1;
        }
      }
      BelowSort(meanArray[..writtenErrorsCounter], 0);
      BelowSort(meanArray[..writtenErrorsCounter], 1);
    }

    method GetMedian() returns (m: int)
      requires Valid()
      ensures m == Median(Window())
      ensures var arrivals := meanArray[..writtenErrorsCounter];
              if Positives(arrivals) == Negatives(arrivals) then m == 0
              else forall v :: m < v <==> |arrivals| / 2 < Below(arrivals, v)
    {
      hide Sort, Positives, Negatives, Below, MedianOf;
      m := median;
      forall v
        ensures var arrivals := meanArray[..writtenErrorsCounter];
                if Positives(arrivals) == Negatives(arrivals) then m == 0
                else m < v <==> |arrivals| / 2 < Below(arrivals, v)
      {
        MedianIsUpperMiddle(meanArray[..writtenErrorsCounter], v);
      }
    }

    method GetSampleSize() returns (n: uint8)
      requires Valid()
      ensures n == |Window()|
    {
      n := writtenErrorsCounter;
    }

    method GetSmoothedCurrentError() returns (mean: int)
      requires Valid()
      ensures mean == SmoothedError(config.MeanWindow(), Window())
    {
      var samples := writtenErrorsCounter;
      if samples == 0 {
        return 0;
      }
      var cfgWindow: uint8 := config.calculationWindowSmoothedMean % 0x100;
      if cfgWindow == 0 {
        return 0;
      }
      var window := Min(samples, cfgWindow);
      var start := samples - window;
      var sum := 0;
      for i := start to samples
        invariant sum == Sum(meanArray[start..i])
      {
        assert meanArray[start..i + 1][..i - start] == meanArray[start..i];
        sum := sum + meanArray[i];
      }
      assert meanArray[start..samples] == Last(Errors(Window()), cfgWindow);
      return TruncDiv(sum, window);
    }

    method GetOmega(loopTimestamp: uint32) returns (omega: real)
      requires Valid()
      ensures omega == Omega(config.omegaRobust, Window())
    {
      hide Rate, Sort, MedianOf, Omega, Zip;
      var samples := writtenErrorsCounter;
      if samples < 2 {
        OmegaOfFew(config.omegaRobust, Window());
        return 0.0;
      }
      var cfgWindow := config.omegaRobust;
      if cfgWindow == 0 {
        OmegaOfFew(cfgWindow, Window());
        return 0.0;
      }
      var window := Min(samples, cfgWindow);
      if window == 0 {
        return 0.0;
      }
      if window < 2 {
        OmegaOfFew(cfgWindow, Window());
        return 0.0;
      }
      var start, end := samples - window, samples - 1;
      OmegaOfEnds(cfgWindow, Window());
      WindowAt(start);
      WindowAt(end);
      var tStart, tEnd := timeArray[start], timeArray[end];
      if tEnd <= tStart {
        return 0.0;
      }
      omega := RateBetween(start, end);
    }

    lemma {:induction false} WindowAt(k: nat)
      requires Shaped() && k < writtenErrorsCounter <= OBSERVATION_BUFFER_SIZE
      ensures Window()[k] == Observation(meanArray[k], timeArray[k])
    {
      assert Window()[k].error == Errors(Window())[k];
    }

    /** The negated error rate between two stored samples. */
    method RateBetween(start: nat, end: nat) returns (omega: real)
      requires Shaped() && start < OBSERVATION_BUFFER_SIZE && end < OBSERVATION_BUFFER_SIZE
      requires timeArray[start] < timeArray[end]
      ensures omega == Rate(meanArray[end] - meanArray[start], timeArray[end] - timeArray[start])
    {
      var duration: uint32 := Elapsed(timeArray[end], timeArray[start]);
      var deltaError := meanArray[end] - meanArray[start];
      var errorRate := deltaError as real * 1000.0 / duration as real;
      return -errorRate;
    }
  }

  ghost function Zip(errors: seq<int>, times: seq<uint32>): (w: Window)
    requires |errors| == |times|
    ensures |w| == |errors| && Errors(w) == errors
    ensures forall i :: 0 <= i < |w| ==> w[i].time == times[i]
  {
    seq(|errors|, i requires 0 <= i < |errors| => Observation(errors[i], times[i]))
  }
}
