/**
 * `Tracker`: one correlation tracker bound to a persistent id. The value-level
 * functions say what each operation does to the tracker's state; the class
 * holds that state in fields and its methods are proved against them.
 */
module FaceTracker {
  import opened Wrappers
  import opened Geometry
  import opened Correlation

  /**
   * The mutable part of a tracker: the last frame it was updated on, its
   * correlation tracker, and the memoised quality of the last update (absent
   * until the first update on a new frame: the constructor never sets it).
   */
  datatype TrackerState = TrackerState(lastFrame: Frame, t: Corr, updateVal: Option<real>)

  /** A tracker just built on `bb` in `frame`. */
  function Spawned(frame: Frame, bb: Box): TrackerState
  {
    TrackerState(frame, StartTrack(frame, bb), None)
  }

  /**
   * `Tracker.update(frame)`: on a frame other than the last one, update the
   * primitive once and remember the frame and the quality; on the same
   * frame, return the remembered quality. The result is None when nothing
   * was remembered yet (the attribute is missing and the source raises).
   */
  function UpdateStep(p: Primitive, s: TrackerState, frame: Frame): (TrackerState, Option<real>)
  {
    if frame.token != s.lastFrame.token then
      var (c, q) := Advance(p, s.t, frame, None);
      (TrackerState(frame, c, Some(q)), Some(q))
    else
      (s, s.updateVal)
  }

  /**
   * `Tracker.tracking_quality(frame, bb)`: the quality of a guided update
   * towards `bb`, after which the primitive is restarted on `bb`; the
   * memoised frame and value are left as they were.
   */
  function ProbeStep(p: Primitive, s: TrackerState, frame: Frame, bb: Box): (TrackerState, real)
  {
    (TrackerState(s.lastFrame, StartTrack(frame, bb), s.updateVal), Advance(p, s.t, frame, Some(bb)).1)
  }

  /** The update on `frame` would read the never-set memo and fail. */
  predicate Stale(s: TrackerState, frame: Frame)
  {
    frame.token == s.lastFrame.token && s.updateVal.None?
  }

  /** On the frame it last saw, update neither calls the primitive nor changes anything. */
  lemma UpdateSameFrame(p: Primitive, s: TrackerState, frame: Frame)
    requires frame.token == s.lastFrame.token
    ensures UpdateStep(p, s, frame) == (s, s.updateVal)
  {
  }

  /** On a new frame, update calls the primitive once, without guess, and records frame and quality. */
  lemma UpdateNewFrame(p: Primitive, s: TrackerState, frame: Frame)
    requires frame.token != s.lastFrame.token
    ensures var (s', r) := UpdateStep(p, s, frame);
      && s'.lastFrame == frame
      && s'.t.pos == p.relocate(s.t, frame, None).0
      && s'.t.fed == s.t.fed + [Feed(frame, None)]
      && r == s'.updateVal == Some(p.relocate(s.t, frame, None).1)
  {
  }

  /** A second update on the same frame returns the same value and leaves the state as the first left it. */
  lemma UpdateIdempotent(p: Primitive, s: TrackerState, frame: Frame)
    ensures var (s1, r1) := UpdateStep(p, s, frame);
      UpdateStep(p, s1, frame) == (s1, r1)
  {
  }

  /** The update fails exactly on a stale tracker, and a failed update changes nothing. */
  lemma UpdateFailsIffStale(p: Primitive, s: TrackerState, frame: Frame)
    ensures UpdateStep(p, s, frame).1.None? <==> Stale(s, frame)
    ensures Stale(s, frame) ==> UpdateStep(p, s, frame).0 == s
  {
  }

  /** A probe leaves the primitive freshly started on the probed box. */
  lemma ProbeRebinds(p: Primitive, s: TrackerState, frame: Frame, bb: Box)
    ensures var (s', _) := ProbeStep(p, s, frame, bb);
      && s'.t.pos == bb && s'.t.fed == [] && s'.t.start == frame
      && s'.lastFrame == s.lastFrame && s'.updateVal == s.updateVal
  {
  }

  class Tracker {
    var lastFrame: Frame
    var t: Corr
    var updateVal: Option<real>
    const tid: int

    /** Tracker(frame, bb, tid): starts the primitive on `bb`. */
    constructor (frame: Frame, bb: Box, tid: int)
      ensures State() == Spawned(frame, bb) && this.tid == tid
    {
      lastFrame := frame;
      t := StartTrack(frame, bb);
      updateVal := None;
      this.tid := tid;
    }

    function State(): TrackerState
      reads this
    {
      TrackerState(lastFrame, t, updateVal)
    }

    /** `intersect_area`: the area the tracked position shares with `bb`. */
    function IntersectArea(bb: Box): (a: nat)
      reads this
      ensures a <= Area(bb) && a <= Area(t.pos)
      ensures a == InterArea(t.pos, bb)
    {
      InterAreaBounded(bb, t.pos);
      InterAreaSymmetric(bb, t.pos);
      InterArea(bb, t.pos)
    }

    /** `iou`: the overlap ratio between the tracked position and `bb` (at most one third, by `RatioAtMostThird`). */
    function Iou(bb: Box): (r: real)
      reads this
      ensures r == Ratio(t.pos, bb)
    {
      var inter := IntersectArea(bb);
      var den := inter + Area(t.pos) + Area(bb);
      if den == 0 then 0.0 else inter as real / den as real
    }

    /** `is_in_frame(frame_shape)`. */
    function IsInFrame(shape: Shape): (r: bool)
      reads this
      ensures r <==> InFrame(t.pos, shape)
      ensures Proper(t.pos) && shape.height > 0 && shape.width > 0 ==>
        (r <==> InterArea(t.pos, FrameBox(shape)) > 0)
    {
      InFrameIffOverlap(t.pos, shape);
      t.pos.right > 0 && t.pos.left < shape.width && t.pos.top < shape.height && t.pos.bottom > 0
    }

    /** `update(frame)`, memoised on the last frame token. */
    method Update(p: Primitive, frame: Frame) returns (r: Option<real>)
      modifies this
      ensures (State(), r) == UpdateStep(p, old(State()), frame)
    {
      if frame.token != lastFrame.token {
        var (c, q) := Advance(p, t, frame, None);
        t := c;
        updateVal := Some(q);
        lastFrame := frame;
      }
      r := updateVal;
    }

    /** `tracking_quality(frame, bb)`: guided update, then restart on `bb`. */
    method TrackingQuality(p: Primitive, frame: Frame, bb: Box) returns (q: real)
      modifies this
      ensures (State(), q) == ProbeStep(p, old(State()), frame, bb)
      ensures t.pos == bb
    {
      var (_, ret) := Advance(p, t, frame, Some(bb));
      t := StartTrack(frame, bb);
      q := ret;
    }
  }
}
