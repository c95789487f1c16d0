/**
 * `TrackerDetector`: the per-frame scheduler. Each call propagates the
 * trackers, runs the face detector and ingests its boxes on the frames whose
 * index is not a multiple of the detection period, and reports every live
 * tracker's position under its id. The value-level function `DetectStep`
 * says what one call does; the class is proved against it.
 */
module Scheduling {
  import opened Wrappers
  import opened Geometry
  import opened Correlation
  import opened FaceTracker
  import opened TrackerTable

  /** The corners of a box as the face detector reports them, in floating point. */
  datatype RawBox = RawBox(left: real, top: real, right: real, bottom: real)

  /** Python's `int(x)` on a float: truncation toward zero. */
  function Trunc(x: real): (n: int)
    ensures 0.0 <= x ==> 0 <= n && n as real <= x < n as real + 1.0
    ensures x < 0.0 ==> n <= 0 && n as real - 1.0 < x <= n as real
  {
    if 0.0 <= x then x.Floor else -((-x).Floor)
  }

  /** `dlib.rectangle(*[int(x) for x in e[0]])`. */
  function ToBox(r: RawBox): Box
  {
    Box(Trunc(r.left), Trunc(r.top), Trunc(r.right), Trunc(r.bottom))
  }

  /** The list comprehension over the detector's output, one box per detection. */
  function ToBoxes(raw: seq<RawBox>): (r: seq<Box>)
    ensures |r| == |raw|
  {
    seq(|raw|, j requires 0 <= j < |raw| => ToBox(raw[j]))
  }

  /** Why a call raises: a tracker's memoised value was never set, or the period is 0. */
  datatype Fault = StaleUpdate | ZeroPeriod

  /** What a call hands back: the `(box, id)` rows, or the exception it raises. */
  datatype Emitted = Emitted(rows: seq<(Box, int)>) | Raised(fault: Fault)

  /** The rows of `lret` for the keys `order`, taken in that order. */
  function RowsOf(order: seq<int>, states: map<int, TrackerState>): (r: seq<(Box, int)>)
    requires forall k | k in order :: k in states
    ensures |r| == |order|
    decreases |order|
  {
    if |order| == 0 then []
    else
      var k := order[|order| - 1];
      RowsOf(order[..|order| - 1], states) + [(states[k].t.pos, k)]
  }

  /** Row `j` is the `j`-th key with the position of its tracker. */
  lemma {:induction false} RowsOfAt(order: seq<int>, states: map<int, TrackerState>)
    requires forall k | k in order :: k in states
    ensures var r := RowsOf(order, states);
      forall j | 0 <= j < |order| :: r[j] == (states[order[j]].t.pos, order[j])
    decreases |order|
  {
    if |order| > 0 {
      var init := order[..|order| - 1];
      RowsOfAt(init, states);
      var r := RowsOf(order, states);
      forall j | 0 <= j < |init| ensures r[j] == (states[order[j]].t.pos, order[j]) {
        assert order[j] == init[j];
      }
    }
  }

  /** `lret`: one row per live tracker, in dictionary order. */
  function Rows(tb: Table): seq<(Box, int)>
    requires TableOk(tb)
  {
    RowsOf(tb.order, tb.states)
  }

  /** The rows report exactly the live ids, each once, each with its tracker's position. */
  lemma RowsChar(tb: Table)
    requires TableOk(tb)
    ensures var r := Rows(tb);
      && |r| == |tb.states|
      && (forall j | 0 <= j < |r| :: r[j].1 in tb.states && r[j].0 == tb.states[r[j].1].t.pos)
      && (forall j, j' | 0 <= j < j' < |r| :: r[j].1 != r[j'].1)
      && (forall k | k in tb.states :: exists j | 0 <= j < |r| :: r[j].1 == k)
  {
    RowsOfAt(tb.order, tb.states);
    TableSize(tb);
    NoDupPairwise(tb.order);
    var r := Rows(tb);
    forall k | k in tb.states ensures exists j | 0 <= j < |r| :: r[j].1 == k {
      var j :| 0 <= j < |tb.order| && tb.order[j] == k;
      assert r[j].1 == k;
    }
  }

  /** The scheduler's state after a call, and what the call handed back. */
  datatype Outcome = Outcome(table: Table, iframe: int, emitted: Emitted)

  /**
   * What `TrackerDetector.__call__` does once the update has completed with
   * table `t1`: raise if the period is 0; when `iframe % detection_period`
   * is non-zero, detect and ingest; then report the live trackers and count
   * the frame.
   */
  function Schedule(p: Primitive, detect: Frame -> seq<RawBox>, period: int, iframe: int, t1: Table, frame: Frame): Outcome
    requires TableOk(t1)
  {
    if period == 0 then Outcome(t1, iframe, Raised(ZeroPeriod))
    else
      var t2 := if iframe % period != 0 then Ingest(p, frame, ToBoxes(detect(frame)), t1) else t1;
      IngestChar(p, frame, ToBoxes(detect(frame)), t1);
      Outcome(t2, iframe + 1, Emitted(Rows(t2)))
  }

  /**
   * `TrackerDetector.__call__(frame)`: update the trackers first and raise if
   * an update raised; the rest (including the `%`, which can raise too) comes
   * after.
   */
  function DetectStep(p: Primitive, detect: Frame -> seq<RawBox>, period: int, iframe: int, tb: Table, frame: Frame): Outcome
    requires TableOk(tb)
  {
    PropagateChar(p, frame, tb);
    var (t1, ok) := Propagate(p, frame, tb);
    if !ok then Outcome(t1, iframe, Raised(StaleUpdate))
    else Schedule(p, detect, period, iframe, t1, frame)
  }

  /**
   * A call raises the stale-value error iff some tracker's memo is unset on
   * this frame, and the zero-period error iff none is and the period is 0; a
   * call that raises does not count the frame, one that returns does. The
   * table stays well formed either way.
   */
  lemma DetectStepFaults(p: Primitive, detect: Frame -> seq<RawBox>, period: int, iframe: int, tb: Table, frame: Frame)
    requires TableOk(tb)
    ensures var o := DetectStep(p, detect, period, iframe, tb, frame);
      && TableOk(o.table)
      && (o.emitted == Raised(StaleUpdate) <==> exists k | k in tb.states :: Stale(tb.states[k], frame))
      && (o.emitted == Raised(ZeroPeriod) <==> (forall k | k in tb.states :: !Stale(tb.states[k], frame)) && period == 0)
      && (o.emitted.Raised? ==> o.iframe == iframe)
      && (o.emitted.Emitted? ==> o.iframe == iframe + 1)
  {
    PropagateChar(p, frame, tb);
    IngestChar(p, frame, ToBoxes(detect(frame)), Propagate(p, frame, tb).0);
  }

  /**
   * A call that returns reports exactly the live trackers after it, each
   * once, with its position.
   */
  lemma DetectStepReports(p: Primitive, detect: Frame -> seq<RawBox>, period: int, iframe: int, tb: Table, frame: Frame)
    requires TableOk(tb)
    ensures var o := DetectStep(p, detect, period, iframe, tb, frame);
      o.emitted.Emitted? ==>
        && |o.emitted.rows| == |o.table.states|
        && (forall j | 0 <= j < |o.emitted.rows| :: o.emitted.rows[j].1 in o.table.states &&
              o.emitted.rows[j].0 == o.table.states[o.emitted.rows[j].1].t.pos)
        && (forall k | k in o.table.states :: exists j | 0 <= j < |o.emitted.rows| :: o.emitted.rows[j].1 == k)
  {
    DetectStepFaults(p, detect, period, iframe, tb, frame);
    var o := DetectStep(p, detect, period, iframe, tb, frame);
    if o.emitted.Emitted? {
      RowsChar(o.table);
    }
  }

  /**
   * On a frame whose index is a multiple of the period the detector is not
   * run: the trackers kept are exactly those that survive their update, no
   * id is allocated.
   */
  lemma DetectStepSkips(p: Primitive, detect: Frame -> seq<RawBox>, period: int, iframe: int, tb: Table, frame: Frame)
    requires TableOk(tb)
    ensures var o := DetectStep(p, detect, period, iframe, tb, frame);
      (o.emitted.Emitted? && iframe % period == 0) ==>
        && o.table.next == tb.next
        && (forall k :: k in o.table.states <==> k in tb.states && Survives(p, tb.states[k], frame))
        && (forall k | k in o.table.states :: o.table.states[k] == UpdateStep(p, tb.states[k], frame).0)
  {
    PropagateChar(p, frame, tb);
  }

  /** Rows of trackers freshly started on `boxes` under the ids `base`, `base + 1`, ... */
  lemma RowsOfSpawned(frame: Frame, order: seq<int>, states: map<int, TrackerState>, boxes: seq<Box>, base: int)
    requires |order| == |boxes|
    requires forall j | 0 <= j < |boxes| :: order[j] in states && states[order[j]] == Spawned(frame, boxes[j])
    requires forall j | 0 <= j < |boxes| :: order[j] == base + j
    ensures var r := RowsOf(order, states);
      forall j | 0 <= j < |boxes| :: r[j] == (boxes[j], base + j)
  {
    RowsOfAt(order, states);
  }

  /** After ingestion the rows list the boxes in order, under consecutive ids from the old counter. */
  lemma IngestRows(p: Primitive, frame: Frame, boxes: seq<Box>, tb: Table)
    requires TableOk(tb)
    ensures TableOk(Ingest(p, frame, boxes, tb))
    ensures var r := Rows(Ingest(p, frame, boxes, tb));
      |r| == |boxes| && forall j | 0 <= j < |boxes| :: r[j] == (boxes[j], tb.next + j)
  {
    IngestChar(p, frame, boxes, tb);
    IngestRenumbers(p, frame, boxes, tb);
    var t2 := Ingest(p, frame, boxes, tb);
    RowsOfSpawned(frame, t2.order, t2.states, boxes, tb.next);
  }

  /** The detection branch of `Schedule`, from the table `t1` the update left. */
  lemma ScheduleDetects(p: Primitive, detect: Frame -> seq<RawBox>, period: int, iframe: int, t1: Table, frame: Frame)
    requires TableOk(t1)
    ensures var o := Schedule(p, detect, period, iframe, t1, frame);
      var boxes := ToBoxes(detect(frame));
      (o.emitted.Emitted? && iframe % period != 0) ==>
        && |o.emitted.rows| == |boxes|
        && o.table.next == t1.next + |boxes|
        && (forall j | 0 <= j < |boxes| :: o.emitted.rows[j] == (boxes[j], t1.next + j))
        && (forall k | k in o.table.states :: t1.next <= k)
  {
    var boxes := ToBoxes(detect(frame));
    var o := Schedule(p, detect, period, iframe, t1, frame);
    if o.emitted.Emitted? && iframe % period != 0 {
      IngestRows(p, frame, boxes, t1);
      IngestRenumbers(p, frame, boxes, t1);
      assert o.table == Ingest(p, frame, boxes, t1);
    }
  }

  /**
   * On every other frame the detector's boxes replace the trackers: one new
   * tracker per box, reported at its box, under consecutive fresh ids, and
   * none of the old ids survives.
   */
  lemma DetectStepDetects(p: Primitive, detect: Frame -> seq<RawBox>, period: int, iframe: int, tb: Table, frame: Frame)
    requires TableOk(tb)
    ensures var o := DetectStep(p, detect, period, iframe, tb, frame);
      var boxes := ToBoxes(detect(frame));
      (o.emitted.Emitted? && iframe % period != 0) ==>
        && |o.emitted.rows| == |boxes|
        && o.table.next == tb.next + |boxes|
        && (forall j | 0 <= j < |boxes| :: o.emitted.rows[j] == (boxes[j], tb.next + j))
        && (forall k | k in tb.states :: k !in o.table.states)
  {
    PropagateChar(p, frame, tb);
    var (t1, ok) := Propagate(p, frame, tb);
    if ok {
      ScheduleDetects(p, detect, period, iframe, t1, frame);
    }
  }

  class TrackerDetector {
    /** `self.detector`: the face detector, as a function of the frame. */
    const detect: Frame -> seq<RawBox>
    /** `self.detection_period`. */
    const detectionPeriod: int
    /** `self.tl`. */
    const tl: TrackerList
    /** `self.iframe`: the number of frames processed. */
    var iframe: int

    ghost predicate Valid()
      reads this, tl
    {
      tl.Valid() && 0 <= iframe
    }

    constructor (detect: Frame -> seq<RawBox>, detectionPeriod: int)
      ensures Valid() && fresh(tl)
      ensures this.detect == detect && this.detectionPeriod == detectionPeriod
      ensures iframe == 0 && tl.Abs() == Table([], map[], 0)
    {
      this.detect := detect;
      this.detectionPeriod := detectionPeriod;
      tl := new TrackerList();
      iframe := 0;
    }

    /** The loop building `lret`: each live id with its tracker's position, in dictionary order. */
    method Positions() returns (lret: seq<(Box, int)>)
      requires tl.Valid()
      ensures lret == Rows(tl.Abs())
    {
      lret := [];
      var n := 0;
      while n < |tl.order|
        invariant 0 <= n <= |tl.order|
        invariant lret == RowsOf(tl.order[..n], tl.View())
      {
        var faceid := tl.order[n];
        var bb := tl.d[faceid].t.pos;
        assert tl.order[..n + 1][..n] == tl.order[..n];
        lret := lret + [(bb, faceid)];
        n := n + 1;
      }
      assert tl.order[..n] == tl.order;
    }

    /** The detection branch of `__call__`: on a frame whose index is not a multiple of the period, ingest the detector's boxes. */
    method Refresh(p: Primitive, frame: Frame)
      requires Valid() && detectionPeriod != 0
      modifies tl, tl.d.Values
      ensures Valid()
      ensures tl.Abs() == if iframe % detectionPeriod != 0 then Ingest(p, frame, ToBoxes(detect(frame)), old(tl.Abs())) else old(tl.Abs())
      ensures forall k | k in tl.d :: tl.d[k] in old(tl.d.Values) || fresh(tl.d[k])
    {
      if iframe % detectionPeriod != 0 {
        var detectedFaces := ToBoxes(detect(frame));
        tl.IngestDetection(p, frame, detectedFaces);
      }
    }

    /** The part of `__call__` after the update: detection, ingestion, the report and the frame count. */
    method Proceed(p: Primitive, frame: Frame) returns (e: Emitted)
      requires Valid() && TableOk(tl.Abs())
      modifies this, tl, tl.d.Values
      ensures Valid()
      ensures var o := Schedule(p, detect, detectionPeriod, old(iframe), old(tl.Abs()), frame);
        tl.Abs() == o.table && iframe == o.iframe && e == o.emitted
      ensures forall k | k in tl.d :: tl.d[k] in old(tl.d.Values) || fresh(tl.d[k])
    {
      if detectionPeriod == 0 {
        return Raised(ZeroPeriod);
      }
      Refresh(p, frame);
      var lret := Positions();
      iframe := iframe + 1;
      e := Emitted(lret);
    }

    /** `__call__(frame)`. */
    method Call(p: Primitive, frame: Frame) returns (e: Emitted)
      requires Valid()
      modifies this, tl, tl.d.Values
      ensures Valid()
      ensures var o := DetectStep(p, detect, detectionPeriod, old(iframe), old(tl.Abs()), frame);
        tl.Abs() == o.table && iframe == o.iframe && e == o.emitted
      ensures forall k | k in tl.d :: tl.d[k] in old(tl.d.Values) || fresh(tl.d[k])
    {
      assert TableOk(tl.Abs());
      var ok := tl.Update(p, frame);
      if !ok {
        return Raised(StaleUpdate);
      }
      ValuesShrink(tl.d, old(tl.d));
      assert TableOk(tl.Abs());
      e := Proceed(p, frame);
    }
  }

  /** A call keeps the table well formed and counts the frame iff it returns. */
  lemma DetectStepKeeps(p: Primitive, detect: Frame -> seq<RawBox>, period: int, iframe: int, tb: Table, frame: Frame)
    requires TableOk(tb)
    ensures TableOk(DetectStep(p, detect, period, iframe, tb, frame).table)
    ensures DetectStep(p, detect, period, iframe, tb, frame).iframe
      == if DetectStep(p, detect, period, iframe, tb, frame).emitted.Raised? then iframe else iframe + 1
  {
    DetectStepFaults(p, detect, period, iframe, tb, frame);
  }

  /** The scheduler's state after a run of frames, and what each call handed back. */
  datatype Trace = Trace(table: Table, iframe: int, outs: seq<Emitted>)

  /**
   * The frame loop that drives the detector (`for detection in
   * detector(frame)` for each frame): one call per frame, until a call raises,
   * which ends the loop.
   */
  function Run(p: Primitive, detect: Frame -> seq<RawBox>, period: int, iframe: int, tb: Table, frames: seq<Frame>): (r: Trace)
    requires TableOk(tb)
    ensures TableOk(r.table)
    decreases |frames|
  {
    if |frames| == 0 then Trace(tb, iframe, [])
    else
      DetectStepKeeps(p, detect, period, iframe, tb, frames[0]);
      var o := DetectStep(p, detect, period, iframe, tb, frames[0]);
      if o.emitted.Raised? then Trace(o.table, o.iframe, [o.emitted])
      else
        var rest := Run(p, detect, period, o.iframe, o.table, frames[1..]);
        Trace(rest.table, rest.iframe, [o.emitted] + rest.outs)
  }

  /** One frame of a run: the call on the first frame, then the run on the rest unless it raised. */
  lemma RunFirst(p: Primitive, detect: Frame -> seq<RawBox>, period: int, iframe: int, tb: Table, frames: seq<Frame>)
    requires TableOk(tb) && |frames| > 0
    ensures var o := DetectStep(p, detect, period, iframe, tb, frames[0]);
      && TableOk(o.table)
      && Run(p, detect, period, iframe, tb, frames)
        == if o.emitted.Raised? then Trace(o.table, o.iframe, [o.emitted])
           else var rest := Run(p, detect, period, o.iframe, o.table, frames[1..]);
             Trace(rest.table, rest.iframe, [o.emitted] + rest.outs)
  {
    DetectStepKeeps(p, detect, period, iframe, tb, frames[0]);
  }

  /**
   * A run hands back one result per frame up to and including the first
   * raise, and none after it: every result but the last is a report, the run
   * covers all frames iff no call raised, and the frame count grows by the
   * number of reports.
   */
  lemma {:induction false} RunShape(p: Primitive, detect: Frame -> seq<RawBox>, period: int, iframe: int, tb: Table, frames: seq<Frame>)
    requires TableOk(tb)
    ensures var r := Run(p, detect, period, iframe, tb, frames);
      && |r.outs| <= |frames|
      && (forall j | 0 <= j < |r.outs| - 1 :: r.outs[j].Emitted?)
      && (|r.outs| == |frames| || (|r.outs| > 0 && r.outs[|r.outs| - 1].Raised?))
      && (|r.outs| > 0 && r.outs[|r.outs| - 1].Raised? ==> r.iframe == iframe + |r.outs| - 1)
      && ((|r.outs| == 0 || r.outs[|r.outs| - 1].Emitted?) ==> r.iframe == iframe + |r.outs| && |r.outs| == |frames|)
    decreases |frames|
  {
    if |frames| > 0 {
      RunFirst(p, detect, period, iframe, tb, frames);
      DetectStepKeeps(p, detect, period, iframe, tb, frames[0]);
      var o := DetectStep(p, detect, period, iframe, tb, frames[0]);
      if o.emitted.Emitted? {
        RunShape(p, detect, period, o.iframe, o.table, frames[1..]);
        var rest := Run(p, detect, period, o.iframe, o.table, frames[1..]);
        var outs := Run(p, detect, period, iframe, tb, frames).outs;
        assert outs == [o.emitted] + rest.outs;
        forall j | 0 <= j < |outs| - 1 ensures outs[j].Emitted? {
          if j > 0 { assert outs[j] == rest.outs[j - 1]; }
        }
      }
    }
  }

  /**
   * One turn of the frame loop: the call on the first frame gives the first
   * result of the run; the rest of the run starts from the state the call
   * left, unless the call raised. The trackers the call allocates are new
   * objects.
   */
  method Advance(td: TrackerDetector, p: Primitive, frames: seq<Frame>) returns (e: Emitted)
    requires td.Valid() && |frames| > 0
    modifies td, td.tl, td.tl.d.Values
    ensures td.Valid()
    ensures var r1 := Run(p, td.detect, td.detectionPeriod, old(td.iframe), old(td.tl.Abs()), frames);
      if e.Raised? then r1.outs == [e] && r1.table == td.tl.Abs() && r1.iframe == td.iframe
      else r1 == var r2 := Run(p, td.detect, td.detectionPeriod, td.iframe, td.tl.Abs(), frames[1..]);
        Trace(r2.table, r2.iframe, [e] + r2.outs)
    ensures forall t | t in td.tl.d.Values :: t in old(td.tl.d.Values) || fresh(t)
  {
    assert TableOk(td.tl.Abs());
    RunFirst(p, td.detect, td.detectionPeriod, td.iframe, td.tl.Abs(), frames);
    e := td.Call(p, frames[0]);
    ghost var kept := set t | t in td.tl.d.Values && (t in old(td.tl.d.Values) || fresh(t));
    forall k | k in td.tl.d ensures td.tl.d[k] in kept { }
    assert td.tl.d.Values <= kept;
  }

  /**
   * The frame loop of `GenderTracking.__call__` as far as the detector is
   * concerned: call it on each frame in turn, stopping at the first raise.
   * The trackers it creates along the way are new objects, so every call is
   * within what the loop may modify.
   */
  method Drive(td: TrackerDetector, p: Primitive, frames: seq<Frame>) returns (outs: seq<Emitted>)
    requires td.Valid()
    modifies td, td.tl, td.tl.d.Values
    ensures td.Valid()
    ensures var r := Run(p, td.detect, td.detectionPeriod, old(td.iframe), old(td.tl.Abs()), frames);
      outs == r.outs && td.tl.Abs() == r.table && td.iframe == r.iframe
  {
    assert TableOk(td.tl.Abs());
    ghost var r0 := Run(p, td.detect, td.detectionPeriod, td.iframe, td.tl.Abs(), frames);
    outs := [];
    var n := 0;
    while n < |frames|
      invariant 0 <= n <= |frames| && td.Valid()
      invariant forall t | t in td.tl.d.Values :: t in old(td.tl.d.Values) || fresh(t)
      invariant var r := Run(p, td.detect, td.detectionPeriod, td.iframe, td.tl.Abs(), frames[n..]);
        outs + r.outs == r0.outs && r.table == r0.table && r.iframe == r0.iframe
    {
      assert frames[n..][1..] == frames[n + 1..];
      ghost var before := outs;
      var e := Advance(td, p, frames[n..]);
      outs := outs + [e];
      if e.Raised? {
        return;
      }
      Assoc(before, [e], Run(p, td.detect, td.detectionPeriod, td.iframe, td.tl.Abs(), frames[n + 1..]).outs);
      n := n + 1;
    }
  }
}
