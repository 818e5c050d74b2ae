/**
  The decision taken on each tick of the A/B loop monitor (the body of the
  interval callback started by `startLoop`). The timer itself is not part of
  this model: a tick is one call with the current position `t`, and its
  answer is either no seek or a seek to the A marker.
 */
module LoopTick {
  import opened Wrappers

  /** `a <= t < b`: the region the loop keeps playback inside. */
  predicate InRegion(a: real, b: real, t: real) {
    a <= t < b
  }

  /** One tick: `Some(A)` is the request `player.seekTo(A)`, `None` no request. */
  function Tick(enabled: bool, a: Option<real>, b: Option<real>, t: real): (seek: Option<real>)
    ensures seek.Some? <==> enabled && a.Some? && b.Some? && !InRegion(a.value, b.value, t)
    ensures seek.Some? ==> seek == a
  {
    if !enabled || a.None? || b.None? then None
    else if t >= b.value || t < a.value then Some(a.value)
    else None
  }

  /** A disabled loop, or a missing marker, never seeks. */
  lemma IdleWithoutBothMarkers(enabled: bool, a: Option<real>, b: Option<real>, t: real)
    requires !enabled || a.None? || b.None?
    ensures Tick(enabled, a, b, t) == None
  {
  }

  /** With `B <= A` the region is empty, so every enabled tick seeks back to A. */
  lemma InvertedMarkersAlwaysSeek(a: real, b: real, t: real)
    requires b <= a
    ensures Tick(true, Some(a), Some(b), t) == Some(a)
  {
  }

  /** With `A < B` a seek lands inside the region: the next tick at A does not seek again. */
  lemma SeekLandsInRegion(a: real, b: real, t: real)
    requires a < b
    requires Tick(true, Some(a), Some(b), t).Some?
    ensures Tick(true, Some(a), Some(b), Tick(true, Some(a), Some(b), t).value) == None
  {
  }

  /** The markers at 10 s and 20 s, polled at 9, 15, 20 and 25 seconds. */
  lemma TenToTwentyExample()
    ensures Tick(true, Some(10.0), Some(20.0), 9.0) == Some(10.0)
    ensures Tick(true, Some(10.0), Some(20.0), 15.0) == None
    ensures Tick(true, Some(10.0), Some(20.0), 20.0) == Some(10.0)
    ensures Tick(true, Some(10.0), Some(20.0), 25.0) == Some(10.0)
  {
  }
}
