/** unwrap_degrees of the drift plot, and how it undoes the wrapping of the simulator. */
module HeadingUnwrap {
  import opened MachineInts
  import opened RealProducts
  import opened BoatModels

  /** The correction for one apparent jump between neighbouring values. */
  function Jump(delta: real): real {
    if delta > 180.0 then -360.0 else if delta < -180.0 then 360.0 else 0.0
  }

  function Offset(values: seq<real>, i: nat): real
    requires i < |values|
  {
    if i == 0 then 0.0 else Offset(values, i - 1) + Jump(values[i] - values[i - 1])
  }

  function Unwrapped(values: seq<real>): (r: seq<real>)
    ensures |r| == |values|
  {
    seq(|values|, i requires 0 <= i < |values| => values[i] + Offset(values, i))
  }

  method UnwrapDegrees(values: seq<real>) returns (unwrapped: seq<real>)
    ensures unwrapped == Unwrapped(values)
  {
    if values == [] {
      return [];
    }
    unwrapped := [values[0]];
    var offset := 0.0;
    for i := 1 to |values|
      invariant offset == Offset(values, i - 1)
      invariant unwrapped == Unwrapped(values)[..i]
    {
      var delta := values[i] - values[i - 1];
      if delta > 180.0 {
        offset := offset - 360.0;
      } else if delta < -180.0 {
        offset := offset + 360.0;
      }
      unwrapped := unwrapped + [values[i] + offset];
    }
  }

  /** values are the wrapped headings of an unwrapped track that starts on the rose. */
  ghost predicate WrapsTo(track: seq<real>, values: seq<real>) {
    && |track| == |values|
    && (track != [] ==> 0.0 <= track[0] < 360.0)
    && (forall i :: 0 <= i < |track| ==> values[i] == Wrapped(track[i]))
  }

  /** A step shorter than a half turn, or a half turn that did not cross north. */
  ghost predicate Readable(track: seq<real>, values: seq<real>, i: nat)
    requires |track| == |values| && i + 1 < |track|
  {
    var step := track[i + 1] - track[i];
    AbsReal(step) < 180.0 || (AbsReal(step) == 180.0 && values[i + 1] - values[i] == step)
  }

  /** Unwrapping returns the track exactly when every step of it is readable. */
  lemma {:induction false} UnwrapRecoversIff(track: seq<real>, values: seq<real>)
    requires WrapsTo(track, values)
    ensures Unwrapped(values) == track <==> forall i :: 0 <= i < |track| - 1 ==> Readable(track, values, i)
  {
    hide Readable, Offset, Wrapped;
    if forall i :: 0 <= i < |track| - 1 ==> Readable(track, values, i) {
      forall k | 0 <= k < |track|
        ensures values[k] + Offset(values, k) == track[k]
      {
        RecoversUpTo(track, values, k);
      }
      assert Unwrapped(values) == track;
    }
    if Unwrapped(values) == track {
      forall i | 0 <= i < |track| - 1
        ensures Readable(track, values, i)
      {
        RecoveredIsReadable(track, values, i);
      }
    }
  }

  lemma {:induction false} RecoveredIsReadable(track: seq<real>, values: seq<real>, i: nat)
    requires WrapsTo(track, values) && i + 1 < |track| && Unwrapped(values) == track
    ensures Readable(track, values, i)
  {
    assert Unwrapped(values)[i] == track[i] && Unwrapped(values)[i + 1] == track[i + 1];
    StepReadableIff(track, values, i);
  }

  lemma {:induction false} RecoversUpTo(track: seq<real>, values: seq<real>, k: nat)
    requires WrapsTo(track, values) && k < |track|
    requires forall i :: 0 <= i < |track| - 1 ==> Readable(track, values, i)
    ensures values[k] + Offset(values, k) == track[k]
  {
    if k == 0 {
      WrappedUnique(track[0], track[0], 0);
    } else {
      RecoversUpTo(track, values, k - 1);
      StepReadableIff(track, values, k - 1);
    }
  }

  /** The correction for one step is right exactly when the step is readable. */
  lemma {:induction false} StepReadableIff(track: seq<real>, values: seq<real>, i: nat)
    requires WrapsTo(track, values) && i + 1 < |track|
    ensures values[i + 1] - values[i] + Jump(values[i + 1] - values[i]) == track[i + 1] - track[i]
       <==> Readable(track, values, i)
  {
    WrappedRange(track[i]);
    WrappedRange(track[i + 1]);
    var turns := (track[i] / 360.0).Floor - (track[i + 1] / 360.0).Floor;
    WholeTurns(values[i + 1] - values[i], track[i + 1] - track[i], turns);
  }

  lemma {:induction false} WholeTurns(delta: real, step: real, turns: int)
    requires -360.0 < delta < 360.0 && delta == step + 360.0 * turns as real
    ensures delta + Jump(delta) == step <==> AbsReal(step) < 180.0 || (AbsReal(step) == 180.0 && delta == step)
  {
    if AbsReal(step) < 180.0 {
      assert -1 <= turns <= 1;
    }
  }

  // ---- The track of a voyage

  /** The headings the simulator records: at launch and after every pass. */
  function Recorded(cfg: BoatConfig, sine: Sine, dt: real, impulses: seq<real>): (r: seq<real>)
    requires cfg.yawInertia > 0.0
    ensures |r| == |impulses| + 1
  {
    seq(|impulses| + 1, k requires 0 <= k <= |impulses| => Voyage(cfg, sine, dt, impulses[..k]).heading)
  }

  /** The first heading plus the sum of angular velocity times dt. */
  function Track(cfg: BoatConfig, sine: Sine, dt: real, impulses: seq<real>): (r: seq<real>)
    requires cfg.yawInertia > 0.0
    ensures |r| == |impulses| + 1
  {
    if impulses == [] then [Launched(cfg).heading]
    else
      var front := Track(cfg, sine, dt, impulses[..|impulses| - 1]);
      front + [front[|impulses| - 1] + Mul(Voyage(cfg, sine, dt, impulses).angularVelocity, dt)]
  }

  lemma {:induction false} RecordedWrapsTrack(cfg: BoatConfig, sine: Sine, dt: real, impulses: seq<real>)
    requires cfg.yawInertia > 0.0
    ensures WrapsTo(Track(cfg, sine, dt, impulses), Recorded(cfg, sine, dt, impulses))
  {
    hide Voyage, Track, Wrapped, Launched;
    LaunchOnRose(cfg);
    TrackStart(cfg, sine, dt, impulses);
    forall i | 0 <= i <= |impulses|
      ensures Recorded(cfg, sine, dt, impulses)[i] == Wrapped(Track(cfg, sine, dt, impulses)[i])
    {
      HeadingWrapsTrack(cfg, sine, dt, impulses[..i]);
      TrackPrefix(cfg, sine, dt, impulses, i);
    }
  }

  lemma {:induction false} TrackStart(cfg: BoatConfig, sine: Sine, dt: real, impulses: seq<real>)
    requires cfg.yawInertia > 0.0
    ensures Track(cfg, sine, dt, impulses)[0] == Launched(cfg).heading
  {
    hide Voyage;
    if impulses != [] {
      TrackStart(cfg, sine, dt, impulses[..|impulses| - 1]);
    }
  }

  lemma {:induction false} TrackPrefix(cfg: BoatConfig, sine: Sine, dt: real, impulses: seq<real>, i: nat)
    requires cfg.yawInertia > 0.0 && i <= |impulses|
    ensures Track(cfg, sine, dt, impulses)[i] == Track(cfg, sine, dt, impulses[..i])[i]
  {
    hide Voyage;
    if i < |impulses| {
      TrackPrefix(cfg, sine, dt, impulses[..|impulses| - 1], i);
      assert impulses[..|impulses| - 1][..i] == impulses[..i];
    } else {
      assert impulses[..i] == impulses;
    }
  }

  lemma {:induction false} TrackUnrolls(cfg: BoatConfig, sine: Sine, dt: real, impulses: seq<real>)
    requires cfg.yawInertia > 0.0
    ensures var n := |impulses|;
            Track(cfg, sine, dt, impulses)[n] ==
              if n == 0 then Launched(cfg).heading
              else Track(cfg, sine, dt, impulses[..n - 1])[n - 1]
                   + Mul(Voyage(cfg, sine, dt, impulses).angularVelocity, dt)
  {
    hide Voyage, Mul, Launched;
  }

  lemma {:induction false} HeadingWrapsTrack(cfg: BoatConfig, sine: Sine, dt: real, impulses: seq<real>)
    requires cfg.yawInertia > 0.0
    ensures Voyage(cfg, sine, dt, impulses).heading == Wrapped(Track(cfg, sine, dt, impulses)[|impulses|])
  {
    hide Passed, Wrapped, Mul, Launched, Track;
    TrackUnrolls(cfg, sine, dt, impulses);
    if impulses == [] {
      LaunchOnRose(cfg);
    } else {
      var n, front := |impulses|, impulses[..|impulses| - 1];
      HeadingWrapsTrack(cfg, sine, dt, front);
      PassTurns(cfg, sine, Voyage(cfg, sine, dt, front), dt, impulses[n - 1], Track(cfg, sine, dt, front)[n - 1]);
    }
  }

  lemma {:induction false} LaunchOnRose(cfg: BoatConfig)
    ensures 0.0 <= Launched(cfg).heading < 360.0
    ensures Wrapped(Launched(cfg).heading) == Launched(cfg).heading
  {
    WrappedRange(cfg.initialHeading);
    WrappedUnique(Launched(cfg).heading, Launched(cfg).heading, 0);
  }

  lemma {:induction false} PassTurns(cfg: BoatConfig, sine: Sine, b: Boat, dt: real, impulse: real, track: real)
    requires cfg.yawInertia > 0.0 && b.heading == Wrapped(track)
    ensures var after := Passed(cfg, sine, b, dt, impulse);
            after.heading == Wrapped(track + Mul(after.angularVelocity, dt))
  {
    hide Wrapped, NextRate, YawAccel, Mul;
    var after := Passed(cfg, sine, b, dt, impulse);
    WrappedIgnoresTurns(track, Mul(after.angularVelocity, dt));
  }

  /** For every voyage whose heading changes by less than a half turn per pass, unwrapping the
      recorded headings returns the first one plus the accumulated rotation. */
  lemma {:induction false} UnwrapRecoversVoyage(cfg: BoatConfig, sine: Sine, dt: real, impulses: seq<real>)
    requires cfg.yawInertia > 0.0
    requires forall k :: 0 < k <= |impulses| ==>
      AbsReal(Mul(Voyage(cfg, sine, dt, impulses[..k]).angularVelocity, dt)) < 180.0
    ensures Unwrapped(Recorded(cfg, sine, dt, impulses)) == Track(cfg, sine, dt, impulses)
  {
    hide Voyage, Mul, Wrapped, Unwrapped;
    var track, recorded := Track(cfg, sine, dt, impulses), Recorded(cfg, sine, dt, impulses);
    RecordedWrapsTrack(cfg, sine, dt, impulses);
    forall i | 0 <= i < |track| - 1
      ensures Readable(track, recorded, i)
    {
      TrackStep(cfg, sine, dt, impulses, i);
    }
    UnwrapRecoversIff(track, recorded);
  }

  lemma {:induction false} TrackStep(cfg: BoatConfig, sine: Sine, dt: real, impulses: seq<real>, i: nat)
    requires cfg.yawInertia > 0.0 && i < |impulses|
    ensures var track := Track(cfg, sine, dt, impulses);
            track[i + 1] - track[i] == Mul(Voyage(cfg, sine, dt, impulses[..i + 1]).angularVelocity, dt)
  {
    hide Voyage, Mul;
    var front := impulses[..|impulses| - 1];
    if i < |front| {
      TrackStep(cfg, sine, dt, front, i);
      assert front[..i + 1] == impulses[..i + 1];
    } else {
      assert impulses[..i + 1] == impulses;
    }
  }

  /** The rate limit and a short time step make every voyage recoverable. */
  lemma {:induction false} BoundedVoyageIsRecoverable(cfg: BoatConfig, sine: Sine, dt: real, impulses: seq<real>, bound: real)
    requires cfg.Valid() && RateLimit(cfg, dt, bound) && Mul(bound, dt) < 180.0
    ensures Unwrapped(Recorded(cfg, sine, dt, impulses)) == Track(cfg, sine, dt, impulses)
  {
    hide Voyage, Unwrapped, Recorded, Track, Mul;
    forall k | 0 < k <= |impulses|
      ensures AbsReal(Mul(Voyage(cfg, sine, dt, impulses[..k]).angularVelocity, dt)) < 180.0
    {
      VoyageBounded(cfg, sine, dt, impulses[..k], bound);
      StepWithin(Voyage(cfg, sine, dt, impulses[..k]).angularVelocity, dt, bound);
    }
    UnwrapRecoversVoyage(cfg, sine, dt, impulses);
  }

  lemma {:induction false} StepWithin(omega: real, dt: real, bound: real)
    requires 0.0 <= dt && AbsReal(omega) <= bound
    ensures AbsReal(Mul(omega, dt)) <= Mul(bound, dt)
  {
    AbsProduct(omega, dt);
    ProductMonotone(dt, AbsReal(omega), bound);
  }
}
