/** Absolute times for frames that only have a PTS: the PTS is added to a reference, which is renewed when
    the result leaves a window of five seconds before the current time. Times are in nanoseconds. */
module NtpEstimator {
  import opened Options
  import opened Rounding

  const MAX_TIME_DIFFERENCE: int := 5 * SECOND

  datatype Reference = Reference(ntp: int, pts: int)

  /** A frame arrives. */
  datatype Frame = Frame(pts: int, now: int)

  function Computed(r: Reference, clockRate: nat, pts: int): int
    requires clockRate > 0
  {
    r.ntp + MultiplyAndDivide(pts - r.pts, SECOND, clockRate)
  }

  /** The reference that is in use after a frame. */
  function Next(r: Option<Reference>, clockRate: nat, f: Frame): Reference
    requires clockRate > 0
  {
    if r.None? then Reference(f.now, f.pts)
    else
      var computed := Computed(r.value, clockRate, f.pts);
      if computed > f.now || computed < f.now - MAX_TIME_DIFFERENCE then Reference(f.now, f.pts) else r.value
  }

  class Estimator {
    const clockRate: nat
    var refNTP: int
    var refPTS: int
    var started: bool

    ghost function View(): Option<Reference>
      reads this
    {
      if started then Some(Reference(refNTP, refPTS)) else None
    }

    constructor (clockRate: nat)
      ensures View() == None && this.clockRate == clockRate
    {
      this.clockRate, started, refNTP, refPTS := clockRate, false, 0, 0;
    }

    method Estimate(pts: int, now: int) returns (r: int)
      requires clockRate > 0
      modifies this
      ensures View() == Some(Next(old(View()), clockRate, Frame(pts, now)))
      ensures r == Computed(View().value, clockRate, pts)
    {
      ZeroTicks(clockRate);
      if !started {
        started, refNTP, refPTS := true, now, pts;
        return now;
      }
      var computed := refNTP + MultiplyAndDivide(pts - refPTS, SECOND, clockRate);
      if computed > now || computed < now - MAX_TIME_DIFFERENCE {
        refNTP, refPTS := now, pts;
        return now;
      }
      return computed;
    }
  }

  lemma {:induction false} ZeroTicks(clockRate: nat)
    requires clockRate > 0
    ensures MultiplyAndDivide(0, SECOND, clockRate) == 0
  {
    MultiplyAndDivideExact(0, SECOND, clockRate);
  }

  // whole runs

  /** The reference after some frames. */
  function After(frames: seq<Frame>, clockRate: nat): Option<Reference>
    requires clockRate > 0
  {
    if frames == [] then None
    else Some(Next(After(frames[..|frames| - 1], clockRate), clockRate, frames[|frames| - 1]))
  }

  /** The estimate that was returned for frame k. */
  function EstimateOf(frames: seq<Frame>, clockRate: nat, k: nat): int
    requires clockRate > 0 && k < |frames|
  {
    Computed(After(frames[..k + 1], clockRate).value, clockRate, frames[k].pts)
  }

  /** All estimates of a run. */
  method EstimateAll(frames: seq<Frame>, clockRate: nat) returns (r: seq<int>)
    requires clockRate > 0
    ensures |r| == |frames| && forall k :: 0 <= k < |r| ==> r[k] == EstimateOf(frames, clockRate, k)
  {
    var e := new Estimator(clockRate);
    r := [];
    for n := 0 to |frames|
      invariant e.View() == After(frames[..n], clockRate) && e.clockRate == clockRate
      invariant |r| == n && forall k :: 0 <= k < n ==> r[k] == EstimateOf(frames, clockRate, k)
    {
      var x := e.Estimate(frames[n].pts, frames[n].now);
      assert frames[..n + 1][..n] == frames[..n];
      r := r + [x];
    }
  }

  /** An estimate is never in the future and never more than five seconds old. */
  lemma {:induction false} EstimatesAreRecent(frames: seq<Frame>, clockRate: nat, k: nat)
    requires clockRate > 0 && k < |frames|
    ensures frames[k].now - 5_000_000_000 <= EstimateOf(frames, clockRate, k) <= frames[k].now
  {
    ZeroTicks(clockRate);
    assert frames[..k + 1][..k] == frames[..k];
  }

  /** The reference is renewed exactly when it has to be: when the estimate it gives is in the future or more
      than five seconds old. */
  lemma {:induction false} RenewedIff(frames: seq<Frame>, clockRate: nat, k: nat)
    requires clockRate > 0 && 0 < k < |frames|
    ensures var r, f := After(frames[..k], clockRate).value, frames[k];
            var kept := frames[k].now - 5_000_000_000 <= Computed(r, clockRate, f.pts) <= frames[k].now;
            && (kept ==> EstimateOf(frames, clockRate, k) == Computed(r, clockRate, f.pts))
            && (!kept ==> EstimateOf(frames, clockRate, k) == f.now)
  {
    ZeroTicks(clockRate);
    assert frames[..k + 1][..k] == frames[..k];
  }

  /** Neither the clock nor the PTS goes back. */
  predicate GoesOn(frames: seq<Frame>) {
    forall j, k :: 0 <= j <= k < |frames| ==> frames[j].pts <= frames[k].pts && frames[j].now <= frames[k].now
  }

  lemma {:induction false} NextEstimate(frames: seq<Frame>, clockRate: nat, k: nat)
    requires clockRate > 0 && k + 1 < |frames| && GoesOn(frames)
    ensures EstimateOf(frames, clockRate, k) <= EstimateOf(frames, clockRate, k + 1)
  {
    ZeroTicks(clockRate);
    EstimatesAreRecent(frames, clockRate, k);
    assert frames[..k + 2][..k + 1] == frames[..k + 1];
    var r := After(frames[..k + 1], clockRate).value;
    MultiplyAndDivideMonotone(frames[k].pts - r.pts, frames[k + 1].pts - r.pts, SECOND, clockRate);
  }

  /** Estimates never go back, even when the reference is renewed. */
  lemma {:induction false} EstimatesGoOn(frames: seq<Frame>, clockRate: nat, j: nat, k: nat)
    requires clockRate > 0 && j <= k < |frames| && GoesOn(frames)
    ensures EstimateOf(frames, clockRate, j) <= EstimateOf(frames, clockRate, k)
    decreases k - j
  {
    if j < k {
      EstimatesGoOn(frames, clockRate, j, k - 1);
      NextEstimate(frames, clockRate, k - 1);
    }
  }

  /** While the reference is not renewed, estimates are as far apart as the PTS, to within two nanoseconds. */
  lemma {:induction false} EstimatesFollowPTS(frames: seq<Frame>, clockRate: nat, j: nat, k: nat)
    requires clockRate > 0 && j <= k < |frames|
    requires After(frames[..j + 1], clockRate) == After(frames[..k + 1], clockRate)
    ensures var d := EstimateOf(frames, clockRate, k) - EstimateOf(frames, clockRate, j);
            -2 * clockRate < clockRate * d - (frames[k].pts - frames[j].pts) * SECOND < 2 * clockRate
  {
    var r := After(frames[..j + 1], clockRate).value;
    ConversionsApart(frames[j].pts - r.pts, frames[k].pts - r.pts, clockRate);
  }

  lemma {:induction false} ConversionsApart(a: int, b: int, clockRate: nat)
    requires clockRate > 0
    ensures var d := MultiplyAndDivide(b, SECOND, clockRate) - MultiplyAndDivide(a, SECOND, clockRate);
            -2 * clockRate < clockRate * d - (b - a) * SECOND < 2 * clockRate
  {
    MultiplyAndDivideError(a, SECOND, clockRate);
    MultiplyAndDivideError(b, SECOND, clockRate);
    Distribute(clockRate, MultiplyAndDivide(b, SECOND, clockRate), MultiplyAndDivide(a, SECOND, clockRate));
  }

  lemma {:induction false} Distribute(m: int, x: int, y: int)
    ensures m * (x - y) == m * x - m * y
  {
  }
}
