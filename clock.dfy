/**
 * The frame clock of main.js: the frame delta derived from two
 * `requestAnimationFrame` timestamps (milliseconds) and the guarded
 * accumulation of `Step_` into the total elapsed time (seconds).
 */
module Clock {

  import opened Wrappers

  /** A JavaScript number as far as the clock cares: NaN or a finite value. */
  datatype JsNumber = NaN | Num(value: real)

  /** The negation of the guard `isNaN(timeElapsed) || timeElapsed <= 0`. */
  predicate Advances(dt: JsNumber)
  {
    dt.Num? && dt.value > 0.0
  }

  /** `totalTime_` after `Step_(dt)`. */
  function Advance(total: real, dt: JsNumber): (r: real)
    ensures r >= total
    ensures r == total <==> !Advances(dt)
    ensures Advances(dt) ==> r - total == dt.value
  {
    if dt.NaN? || dt.value <= 0.0 then total else total + dt.value
  }

  /** JavaScript's `!previousRAF_`: true for `null` and for the timestamp 0. */
  predicate Falsy(prev: Option<real>)
  {
    prev.None? || prev.value == 0.0
  }

  /**
   * The argument given to `Step_` for a frame at timestamp `t`: a falsy
   * previous timestamp is first replaced by `t`, then the milliseconds since
   * the previous frame are scaled to seconds.
   */
  function FrameDelta(prev: Option<real>, t: real): (dt: real)
    ensures Falsy(prev) ==> dt == 0.0
    ensures !Falsy(prev) ==> dt * 1000.0 == t - prev.value
    ensures !Falsy(prev) ==> (dt > 0.0 <==> t > prev.value)
  {
    var base := if Falsy(prev) then t else prev.value;
    (t - base) * 0.001
  }

  /**
   * `totalTime_` after animation frames with timestamps `ts`, the previous
   * one being `prev`. Whatever timestamps arrive, it never decreases.
   */
  function TotalAfterFrames(prev: Option<real>, total: real, ts: seq<real>): (r: real)
    ensures r >= total
    decreases |ts|
  {
    if ts == [] then total
    else TotalAfterFrames(Some(ts[0]), Advance(total, Num(FrameDelta(prev, ts[0]))), ts[1..])
  }

  /** Timestamps that never go backwards. */
  predicate NonDecreasing(ts: seq<real>)
  {
    forall i, j :: 0 <= i < j < |ts| ==> ts[i] <= ts[j]
  }

  /**
   * With positive, non-decreasing timestamps after a previous frame at `p`,
   * the clock gains exactly the wall time elapsed since `p`, in seconds.
   */
  lemma {:induction false} FramesMeasureElapsed(p: real, total: real, ts: seq<real>)
    requires 0.0 < p
    requires ts != [] && p <= ts[0] && NonDecreasing(ts)
    ensures TotalAfterFrames(Some(p), total, ts) == total + (ts[|ts| - 1] - p) * 0.001
    decreases |ts|
  {
    var next := Advance(total, Num(FrameDelta(Some(p), ts[0])));
    assert next == total + (ts[0] - p) * 0.001;
    if |ts| > 1 {
      FramesMeasureElapsed(ts[0], next, ts[1..]);
    }
  }

  /**
   * Starting from no previous frame, the first frame adds nothing and the
   * clock then measures the time since that first frame.
   */
  lemma FramesFromStart(total: real, ts: seq<real>)
    requires ts != [] && 0.0 < ts[0] && NonDecreasing(ts)
    ensures TotalAfterFrames(None, total, ts) == total + (ts[|ts| - 1] - ts[0]) * 0.001
  {
    assert Advance(total, Num(FrameDelta(None, ts[0]))) == total;
    if |ts| > 1 {
      FramesMeasureElapsed(ts[0], total, ts[1..]);
    }
  }
}
