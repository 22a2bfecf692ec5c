/** The calibration state machine of bandwidth.py: the `Datapath` operations that make a scene
    and measure it (`make_scene`, `pscc`, `check_detail`, `check_motion`) and the `Controller`
    search loops built on them (`make_motion`, `hd_delta`, `ld_rect` with `tune_rect` and
    `bisection`, the fineness loop of `low_detail_scenes` and the tolerance classification of
    `high_detail_scenes`). The camera and the external tools form a deterministic `Device`. */
module Bandwidth {
  import opened Scores
  import opened MotionRule
  import opened Bands
  import opened Frames

  /** Horizontal and vertical resolution of the display showing the scenes. */
  const HorRes: int := 3840
  const VerRes: int := 2160
  /** `int(hor_res * 0.1)`: the width of the rotating motion object. */
  const MoSizeY: int := 384
  /** The fineness `make_scene` draws with when none is passed. */
  const DefaultFineness: int := 6
  /** The fineness a new `Datapath` starts from. */
  const InitialFineness: int := 9
  /** Distance kept between the low detail rectangles and the motion object. */
  const BoxMotionMargin: int := 100
  /** The largest side, in pixels, of a cairo image surface. */
  const MaxSurfaceSide: int := 32767

  /** `make_scene` can draw the background tile of fineness `fine`: cairo refuses a tile
      surface of negative size (bandwidth.py:142), a zero scale (bandwidth.py:144) and a side
      above its limit, raising `cairo.Error`. */
  predicate Drawable(fine: int) {
    0 < fine <= MaxSurfaceSide
  }

  /** A grey low detail rectangle, as the dictionaries `{'x', 'y', 'length', 'height'}`. */
  datatype Rect = Rect(x: real, y: real, length: real, height: real)

  const NoRect := Rect(0.0, 0.0, 0.0, 0.0)

  /** The parameters `make_scene` draws a scene from: motion object length, background
      fineness and the two low detail rectangles. */
  datatype Scene = Scene(moSize: real, fineness: int, rect1: Rect, rect2: Rect)

  /** The camera and the detail tool as seen by the script: the `k`-th reply of the `ms`
      console command while a scene plays, and the text `detail.exe` prints for a frame
      captured from it. */
  datatype Device = Device(motionReplies: Scene -> nat -> string, detailReport: Scene -> string)

  /** How a search loop ends: it finishes, it runs out of the probes allowed to it (the source
      loops without bound), or the source raises (a reply without a motion score, or a detail
      score read before any was ever extracted). */
  datatype Run = Finished | FuelSpent | Crashed

  /** The scene `make_motion` probes: `make_scene(mo_size=...)` keeps the default fineness and
      draws no rectangles. */
  function MotionScene(size: real): Scene {
    Scene(size, DefaultFineness, NoRect, NoRect)
  }

  /** A score field after `check_detail` searched for it: the value found, or the field as it was. */
  function Keep(found: Option<nat>, current: Option<nat>): Option<nat> {
    if found.Some? then found else current
  }

  /** `check_detail`'s update of one score field from the report text. */
  function Updated(report: string, p: Pattern, current: Option<nat>): Option<nat> {
    Keep(Extract(report, p), current)
  }

  /** A report without any match of the pattern leaves the field unchanged; one with a match
      sets the field to the leftmost match's value. */
  lemma UpdatedSpec(report: string, p: Pattern, current: Option<nat>)
    requires WellFormed(p)
    ensures (forall i: nat, n: nat :: !MatchesAt(report, i, p, n)) ==> Updated(report, p, current) == current
    ensures (exists i: nat, n: nat :: MatchesAt(report, i, p, n)) ==>
      Updated(report, p, current).Some? && Updated(report, p, current) == Extract(report, p)
  {
    ExtractSpec(report, p);
  }

  /** A report in the tool's format sets both fields, whatever they held. */
  lemma UpdatedByDetailReport(high: nat, low: nat, h: Option<nat>, l: Option<nat>)
    ensures Updated(DetailReport(high, low), HighDetailPattern, h) == Some(high)
    ensures Updated(DetailReport(high, low), LowDetailPattern, l) == Some(low)
  {
    DetailReportRoundTrip(high, low);
  }

  /** The value a score field holds after searches that found `found`, in order, starting from
      `start`: `check_detail` never clears a field, so a score once held stays held. */
  function Latest(start: Option<nat>, found: seq<Option<nat>>): (r: Option<nat>)
    ensures start.Some? ==> r.Some?
  {
    LatestOf(start, found, |found|)
  }

  /** `Latest` after the first `n` searches of `found`. */
  function LatestOf(start: Option<nat>, found: seq<Option<nat>>, n: nat): (r: Option<nat>)
    requires n <= |found|
    ensures start.Some? ==> r.Some?
  {
    if n == 0 then start else Keep(found[n - 1], LatestOf(start, found, n - 1))
  }

  /** Searches made after the first `n` leave what those `n` left. */
  lemma {:induction false} LatestOfPrefix(start: Option<nat>, found: seq<Option<nat>>, more: seq<Option<nat>>, n: nat)
    requires n <= |found|
    ensures LatestOf(start, found + more, n) == LatestOf(start, found, n)
  {
    if n > 0 {
      LatestOfPrefix(start, found, more, n - 1);
      assert (found + more)[n - 1] == found[n - 1];
    }
  }

  lemma LatestStep(start: Option<nat>, found: seq<Option<nat>>, x: Option<nat>)
    ensures Latest(start, found + [x]) == Keep(x, Latest(start, found))
  {
    LatestOfPrefix(start, found, [x], |found|);
  }

  /** The field ends as the last value a search found... */
  lemma LatestIsLastFound(start: Option<nat>, found: seq<Option<nat>>, k: nat)
    requires k < |found| && found[k].Some?
    requires forall j :: k < j < |found| ==> found[j].None?
    ensures Latest(start, found) == found[k]
  {
    LatestOfAfterFound(start, found, k, |found|);
  }

  lemma {:induction false} LatestOfAfterFound(start: Option<nat>, found: seq<Option<nat>>, k: nat, n: nat)
    requires k < n <= |found| && found[k].Some?
    requires forall j :: k < j < n ==> found[j].None?
    ensures LatestOf(start, found, n) == found[k]
  {
    if n > k + 1 {
      LatestOfAfterFound(start, found, k, n - 1);
    }
  }

  /** ...and as it was when no search found one. */
  lemma LatestNoneFound(start: Option<nat>, found: seq<Option<nat>>)
    requires forall j :: 0 <= j < |found| ==> found[j].None?
    ensures Latest(start, found) == start
  {
    LatestOfNoneFound(start, found, |found|);
  }

  lemma {:induction false} LatestOfNoneFound(start: Option<nat>, found: seq<Option<nat>>, n: nat)
    requires n <= |found|
    requires forall j :: 0 <= j < n ==> found[j].None?
    ensures LatestOf(start, found, n) == start
  {
    if n > 0 {
      LatestOfNoneFound(start, found, n - 1);
    }
  }

  /** The width of an interval of width `w` after `k` halvings. */
  function Halved(w: real, k: nat): (r: real)
    ensures w >= 0.0 ==> r >= 0.0
    ensures w > 0.0 ==> r > 0.0
    ensures r == 0.0 ==> w == 0.0
  {
    if k == 0 then w else Halved(w, k - 1) / 2.0
  }

  lemma HalvedStep(w: real, k: nat)
    ensures Halved(w, k + 1) == Halved(w, k) / 2.0
  {
  }

  /** `steps` moves of one unit from `from`, upwards when `direction` is 1 and downwards otherwise. */
  function Stepped(from: int, steps: int, direction: int): int {
    if direction == 1 then from + steps else from - steps
  }

  /** What one detail report holds: its first high and its first low detail score, if any. */
  datatype Reading = Reading(high: Option<nat>, low: Option<nat>)

  /** The record `seen` keeps every reading of `rec`. */
  ghost predicate Grows(rec: map<Scene, Reading>, seen: map<Scene, Reading>) {
    forall s :: s in rec ==> s in seen && seen[s] == rec[s]
  }

  /** `highs[k]` is the high detail score held after measuring the scene of fineness `fines[k]`
      (motion object `size`, rectangles `r1` and `r2`), starting from the score `start`, and
      `lows[k]` what that measurement found for the low detail score. */
  ghost predicate HighTrace(seen: map<Scene, Reading>, size: real, r1: Rect, r2: Rect,
                            fines: seq<int>, start: Option<nat>, highs: seq<nat>, lows: seq<Option<nat>>)
  {
    && |fines| == |highs| == |lows|
    && forall k {:trigger fines[k]} :: 0 <= k < |highs| ==>
         HighStep(seen, Scene(size, fines[k], r1, r2), Prior(start, highs, k), highs[k], lows[k])
  }

  /** The score held before the `k`-th measurement of a trace. */
  function Prior(start: Option<nat>, highs: seq<nat>, k: nat): Option<nat>
    requires k <= |highs|
  {
    if k == 0 then start else Some(highs[k - 1])
  }

  /** Measuring `scene` with the high score `before` held leaves the high score `after`, and
      finds `low` for the low score. */
  ghost predicate HighStep(seen: map<Scene, Reading>, scene: Scene, before: Option<nat>, after: nat, low: Option<nat>) {
    scene in seen && Some(after) == Keep(seen[scene].high, before) && low == seen[scene].low
  }

  /** A trace goes on with one more measurement, and survives the record growing. */
  lemma HighTraceStep(seen: map<Scene, Reading>, seen2: map<Scene, Reading>, size: real, r1: Rect, r2: Rect,
                      fines: seq<int>, start: Option<nat>, highs: seq<nat>, lows: seq<Option<nat>>,
                      f: int, h: nat, l: Option<nat>)
    requires HighTrace(seen, size, r1, r2, fines, start, highs, lows) && Grows(seen, seen2)
    requires HighStep(seen2, Scene(size, f, r1, r2), Prior(start, highs, |highs|), h, l)
    ensures HighTrace(seen2, size, r1, r2, fines + [f], start, highs + [h], lows + [l])
  {
  }

  /** A trace survives the record growing. */
  lemma HighTraceGrows(seen: map<Scene, Reading>, seen2: map<Scene, Reading>, size: real, r1: Rect, r2: Rect,
                       fines: seq<int>, start: Option<nat>, highs: seq<nat>, lows: seq<Option<nat>>)
    requires HighTrace(seen, size, r1, r2, fines, start, highs, lows) && Grows(seen, seen2)
    ensures HighTrace(seen2, size, r1, r2, fines, start, highs, lows)
  {
  }

  /** The last of the distances `ds`, or `d0` when there are none. */
  function LastOr(d0: nat, ds: seq<nat>): nat {
    if ds == [] then d0 else ds[|ds| - 1]
  }

  /** The distance measured just before `ds[n - 1]`: `d0` before the first. */
  function Prev(d0: nat, ds: seq<nat>, n: nat): nat
    requires 0 < n <= |ds|
  {
    if n == 1 then d0 else ds[n - 2]
  }

  /** Distances `ds`, measured one after the other from a start at distance `d0`, never grow:
      each is no larger than the one before it. */
  predicate Descends(d0: nat, ds: seq<nat>) {
    DescendsTo(d0, ds, |ds|)
  }

  /** The first `n` distances of `ds` descend from `d0`. */
  predicate DescendsTo(d0: nat, ds: seq<nat>, n: nat)
    requires n <= |ds|
  {
    n == 0 || (DescendsTo(d0, ds, n - 1) && ds[n - 1] <= Prev(d0, ds, n))
  }

  /** A descent from `d0` that ends with its first growth: the distances before the last
      descend, and the last is larger than the one before it. */
  predicate Overshoots(d0: nat, ds: seq<nat>) {
    && ds != []
    && DescendsTo(d0, ds, |ds| - 1)
    && ds[|ds| - 1] > Prev(d0, ds, |ds|)
  }

  /** Distances measured later leave a descent of the first `n` as it was. */
  lemma {:induction false} DescendsToPrefix(d0: nat, ds: seq<nat>, more: seq<nat>, n: nat)
    requires n <= |ds|
    ensures DescendsTo(d0, ds + more, n) == DescendsTo(d0, ds, n)
  {
    if n > 0 {
      DescendsToPrefix(d0, ds, more, n - 1);
      assert (ds + more)[n - 1] == ds[n - 1];
      if n > 1 {
        assert (ds + more)[n - 2] == ds[n - 2];
      }
    }
  }

  /** A descent goes on with a distance no larger than its last one, and overshoots with a
      larger one. */
  lemma DescendsStep(d0: nat, ds: seq<nat>, d: nat)
    requires Descends(d0, ds)
    ensures d <= LastOr(d0, ds) ==> Descends(d0, ds + [d])
    ensures d > LastOr(d0, ds) ==> Overshoots(d0, ds + [d])
  {
    DescendsToPrefix(d0, ds, [d], |ds|);
  }

  /** A descent never grows, whichever two of its distances are compared, and none exceeds
      the start's. */
  lemma DescendsPairwise(d0: nat, ds: seq<nat>)
    requires Descends(d0, ds)
    ensures forall k :: 0 <= k < |ds| ==> ds[k] <= d0
    ensures forall j, k :: 0 <= j < k < |ds| ==> ds[k] <= ds[j]
  {
    DescendsToPairwise(d0, ds, |ds|);
  }

  lemma {:induction false} DescendsToPairwise(d0: nat, ds: seq<nat>, n: nat)
    requires n <= |ds| && DescendsTo(d0, ds, n)
    ensures forall k :: 0 <= k < n ==> ds[k] <= d0
    ensures forall j, k :: 0 <= j < k < n ==> ds[k] <= ds[j]
  {
    if n > 0 {
      DescendsToPairwise(d0, ds, n - 1);
    }
  }

  /** The last distance of a descent is the least of all, the start's included: the fineness
      `hd_delta` keeps is the best it measured on its way down. */
  lemma DescendsLeast(d0: nat, ds: seq<nat>)
    requires Descends(d0, ds)
    ensures LastOr(d0, ds) <= d0
    ensures forall k :: 0 <= k < |ds| ==> LastOr(d0, ds) <= ds[k]
  {
    DescendsPairwise(d0, ds);
  }

  /** `lows[k]` is the low detail score held after measuring the scene whose rectangle in slot
      `rectNum` starts at `pos`, ends at the midpoint of `spans[k]` and is `h` high, the other
      slot holding `other` (motion object `size`, fineness `fine`), starting from the score
      `start`, and `highs[k]` what that measurement found for the high detail score. */
  ghost predicate BoxTrace(seen: map<Scene, Reading>, size: real, fine: int, rectNum: int, pos: real, h: real,
                           other: Rect, spans: seq<Span>, start: Option<nat>, lows: seq<nat>, highs: seq<Option<nat>>)
  {
    && |spans| == |lows| + 1 && |highs| == |lows|
    && forall k {:trigger Prior(start, lows, k)} :: 0 <= k < |lows| ==>
         LowStep(seen, TunedScene(size, fine, rectNum, Rect(pos, 0.0, Mid(spans[k]) - pos, h), other), Prior(start, lows, k), lows[k], highs[k])
  }

  /** A box trace survives the record growing. */
  lemma BoxTraceGrows(seen: map<Scene, Reading>, seen2: map<Scene, Reading>, size: real, fine: int, rectNum: int, pos: real,
                      h: real, other: Rect, spans: seq<Span>, start: Option<nat>, lows: seq<nat>, highs: seq<Option<nat>>)
    requires BoxTrace(seen, size, fine, rectNum, pos, h, other, spans, start, lows, highs) && Grows(seen, seen2)
    ensures BoxTrace(seen2, size, fine, rectNum, pos, h, other, spans, start, lows, highs)
  {
  }

  /** A box trace goes on with one more measurement, at the midpoint of its last interval. */
  lemma BoxTraceStep(seen: map<Scene, Reading>, seen2: map<Scene, Reading>, size: real, fine: int, rectNum: int,
                     pos: real, h: real, other: Rect, spans: seq<Span>, start: Option<nat>, lows: seq<nat>,
                     highs: seq<Option<nat>>, next: Span, l: nat, hi: Option<nat>)
    requires BoxTrace(seen, size, fine, rectNum, pos, h, other, spans, start, lows, highs) && Grows(seen, seen2)
    requires LowStep(seen2, TunedScene(size, fine, rectNum, Rect(pos, 0.0, Mid(spans[|lows|]) - pos, h), other), Prior(start, lows, |lows|), l, hi)
    ensures BoxTrace(seen2, size, fine, rectNum, pos, h, other, spans + [next], start, lows + [l], highs + [hi])
  {
    BoxTraceGrows(seen, seen2, size, fine, rectNum, pos, h, other, spans, start, lows, highs);
    forall k | 0 <= k < |lows| + 1
      ensures LowStep(seen2, TunedScene(size, fine, rectNum, Rect(pos, 0.0, Mid((spans + [next])[k]) - pos, h), other),
                      Prior(start, lows + [l], k), (lows + [l])[k], (highs + [hi])[k])
    {
      assert Prior(start, lows + [l], k) == Prior(start, lows, k);
    }
  }

  /** Measuring `scene` with the low score `before` held leaves the low score `after`, and finds
      `high` for the high score. */
  ghost predicate LowStep(seen: map<Scene, Reading>, scene: Scene, before: Option<nat>, after: nat, high: Option<nat>) {
    scene in seen && Some(after) == Keep(seen[scene].low, before) && high == seen[scene].high
  }

  /** The interval `[lo, hi]` of right-hand ends a bisection searches. */
  datatype Span = Span(lo: real, hi: real)

  function Mid(s: Span): real {
    (s.lo + s.hi) / 2.0
  }

  /** One step of `ld_rect.bisection`: a score below the band moves the left end up to the
      midpoint, one above it moves the right end down; a score within it ends the search. */
  function Narrow(s: Span, b: Band): Span {
    match b
    case Below => Span(Mid(s), s.hi)
    case Above => Span(s.lo, Mid(s))
    case Within => s
  }

  /** `spans[k + 1]` is `spans[k]` narrowed by the band of `lows[k]` around `target`: the
      intervals of a bisection, one before each probe and one after the last. */
  predicate Narrowing(spans: seq<Span>, lows: seq<nat>, target: int, tolerance: int) {
    && |spans| == |lows| + 1
    && forall k {:trigger Narrow(spans[k], LowFirst(lows[k], target, tolerance))} :: 0 <= k < |lows| ==>
         spans[k + 1] == Narrow(spans[k], LowFirst(lows[k], target, tolerance))
  }

  /** A bisection goes on with the interval its last one narrows to under the score `l`. */
  lemma NarrowingStep(spans: seq<Span>, lows: seq<nat>, target: int, tolerance: int, l: nat)
    requires Narrowing(spans, lows, target, tolerance)
    ensures Narrowing(spans + [Narrow(spans[|lows|], LowFirst(l, target, tolerance))], lows + [l], target, tolerance)
  {
  }

  /** Every interval of a bisection lies inside the first. */
  lemma {:induction false} NarrowingWithin(spans: seq<Span>, lows: seq<nat>, target: int, tolerance: int, k: nat)
    requires Narrowing(spans, lows, target, tolerance) && k < |spans| && spans[0].lo <= spans[0].hi
    ensures spans[0].lo <= spans[k].lo <= spans[k].hi <= spans[0].hi
    ensures spans[0].lo <= Mid(spans[k]) <= spans[0].hi
  {
    if k > 0 {
      NarrowingWithin(spans, lows, target, tolerance, k - 1);
      assert spans[k] == Narrow(spans[k - 1], LowFirst(lows[k - 1], target, tolerance));
    }
  }

  /** A bisection over the ends `[pos, pos + room]` of a rectangle at `pos` only ever tries
      lengths between nothing and `room`. */
  lemma BisectedLength(spans: seq<Span>, lows: seq<nat>, target: int, tolerance: int, pos: real, room: real, k: nat)
    requires Narrowing(spans, lows, target, tolerance) && k < |spans|
    requires spans[0] == Span(pos, pos + room) && room >= 0.0
    ensures 0.0 <= Mid(spans[k]) - pos <= room
  {
    NarrowingWithin(spans, lows, target, tolerance, k);
  }

  /** Until a score lands within the band, each step of a bisection halves the interval. */
  lemma {:induction false} NarrowingHalves(spans: seq<Span>, lows: seq<nat>, target: int, tolerance: int, k: nat)
    requires Narrowing(spans, lows, target, tolerance) && k < |spans|
    requires forall j :: 0 <= j < k ==> LowFirst(lows[j], target, tolerance) != Within
    ensures spans[k].hi - spans[k].lo == Halved(spans[0].hi - spans[0].lo, k)
  {
    if k > 0 {
      NarrowingHalves(spans, lows, target, tolerance, k - 1);
      assert spans[k] == Narrow(spans[k - 1], LowFirst(lows[k - 1], target, tolerance));
      HalvedStep(spans[0].hi - spans[0].lo, k - 1);
    }
  }

  /** The scene of motion object `size` and fineness `fine` with the rectangle `r` in slot
      `rectNum` (1 or 2) and `other` in the other slot. */
  function TunedScene(size: real, fine: int, rectNum: int, r: Rect, other: Rect): Scene {
    if rectNum == 1 then Scene(size, fine, r, other) else Scene(size, fine, other, r)
  }

  /** The scene `ld_rect` measures first: the first rectangle across the whole of its room,
      `x_limit` long from the left edge, and an empty second rectangle where that room ends on
      the right. */
  function Opening(size: real, fine: int, xLimit: real): Scene {
    Scene(size, fine, Rect(0.0, 0.0, xLimit, VerRes as real), Rect(HorRes as real - xLimit, 0.0, 0.0, VerRes as real))
  }

  class Controller {
    const device: Device
    const tolerance: int
    const motionTarget: nat
    const highDetailTarget: nat
    const lowDetailTarget: nat

    var fineness: int
    var direction: int
    var moSize: real
    var highDetail: Option<nat>
    var lowDetail: Option<nat>
    var motionList: seq<nat>
    var motionScore: nat
    /** The scene held by `bw_frames/scene.mp4`, the file `play_scene` plays. */
    var playing: Scene
    /** The frames last written to `bw_frames`. */
    var frames: seq<Frame>
    var rect1: Rect
    var rect2: Rect
    var height: int
    var xLimit: real
    var rects: seq<Rect>
    var poss: seq<real>
    var lengths: seq<real>

    /** A fresh controller; `stale` is whatever `scene.mp4` already holds. */
    constructor(device: Device, tolerance: int, motionTarget: nat, highDetailTarget: nat,
                lowDetailTarget: nat, stale: Scene)
      ensures this.device == device && this.tolerance == tolerance
      ensures this.motionTarget == motionTarget && this.highDetailTarget == highDetailTarget
      ensures this.lowDetailTarget == lowDetailTarget
      ensures fineness == InitialFineness && highDetail.None? && lowDetail.None?
      ensures playing == stale && rect1 == NoRect && rect2 == NoRect
    {
      this.device := device;
      this.tolerance := tolerance;
      this.motionTarget := motionTarget;
      this.highDetailTarget := highDetailTarget;
      this.lowDetailTarget := lowDetailTarget;
      fineness := InitialFineness;
      direction := 0;
      moSize := 0.0;
      highDetail := None;
      lowDetail := None;
      motionList := [];
      motionScore := 0;
      playing := stale;
      frames := [];
      rect1 := NoRect;
      rect2 := NoRect;
      height := VerRes;
      xLimit := 0.0;
      rects := [];
      poss := [];
      lengths := [];
    }

    /** The motion poll of the scene whose motion object is `size` long. */
    function MotionAt(size: real): PollResult {
      Poll(device.motionReplies(MotionScene(size)))
    }

    /** The motion object of length `size` meets the motion target. */
    predicate HitsMotionTarget(size: real) {
      MotionAt(size).Stopped? && MotionAt(size).score == motionTarget
    }

    /** A longer motion object never scores less motion. */
    ghost predicate MonotoneMotion() {
      forall a: real, b: real ::
        a <= b && MotionAt(a).Stopped? && MotionAt(b).Stopped? ==> MotionAt(a).score <= MotionAt(b).score
    }

    /** What the detail tool reports for a frame captured from scene `s`. */
    function DetailAt(s: Scene): Reading {
      var report := device.detailReport(s);
      Reading(Extract(report, HighDetailPattern), Extract(report, LowDetailPattern))
    }

    /** Every reading in the record is what the detail tool reports for its scene. */
    ghost predicate DetailRecorded(rec: map<Scene, Reading>) {
      forall s {:trigger DetailAt(s)} :: s in rec ==> rec[s] == DetailAt(s)
    }

    /** The difference between a high detail score and its target, `abs(high_detail - high_detail_target)`. */
    function Gap(high: nat): nat {
      Abs(high - highDetailTarget)
    }

    /** `make_scene` with the default name: writes the 21 frames of a half turn and turns them
        into `scene.mp4`. */
    method MakeScene(size: real, fine: int, r1: Rect, r2: Rect)
      modifies this`playing, this`frames
      ensures playing == Scene(size, fine, r1, r2)
      ensures frames == FrameSchedule()
    {
      var shots: seq<Frame> := [];
      var i := 0;
      while i < 181
        invariant i == 9 * |shots| && |shots| <= FrameCount
        invariant forall k :: 0 <= k < |shots| ==> shots[k] == Frame(9 * k, Render(k))
      {
        shots := shots + [Frame(i, Render(i / 9))];
        i := i + 9;
      }
      FrameScheduleFrom(shots);
      frames := shots;
      playing := Scene(size, fine, r1, r2);
    }

    /** `check_detail` on the tool's output `report`. */
    method CheckDetail(report: string)
      modifies this`highDetail, this`lowDetail
      ensures highDetail == Updated(report, HighDetailPattern, old(highDetail))
      ensures lowDetail == Updated(report, LowDetailPattern, old(lowDetail))
    {
      var high := Extract(report, HighDetailPattern);
      if high.Some? {
        highDetail := high;
      }
      var low := Extract(report, LowDetailPattern);
      if low.Some? {
        lowDetail := low;
      }
    }

    /** `pscc(5.0, 'detail')`: play `scene.mp4`, capture a frame and check its detail. The
        reading is added to the record `rec`. */
    method PsccDetail(ghost rec: map<Scene, Reading>) returns (ghost seen: map<Scene, Reading>)
      requires DetailRecorded(rec)
      modifies this`highDetail, this`lowDetail
      ensures DetailRecorded(seen) && Grows(rec, seen) && playing in seen
      ensures highDetail == Keep(seen[playing].high, old(highDetail))
      ensures lowDetail == Keep(seen[playing].low, old(lowDetail))
    {
      CheckDetail(device.detailReport(playing));
      seen := rec[playing := DetailAt(playing)];
    }

    /** `make_scene(...)` followed by `pscc(5.0, 'detail')`. */
    method ProbeDetail(size: real, fine: int, r1: Rect, r2: Rect, ghost rec: map<Scene, Reading>)
      returns (ghost seen: map<Scene, Reading>)
      requires DetailRecorded(rec)
      modifies this`playing, this`frames, this`highDetail, this`lowDetail
      ensures playing == Scene(size, fine, r1, r2) && frames == FrameSchedule()
      ensures DetailRecorded(seen) && Grows(rec, seen) && playing in seen
      ensures highDetail == Keep(seen[playing].high, old(highDetail))
      ensures lowDetail == Keep(seen[playing].low, old(lowDetail))
    {
      MakeScene(size, fine, r1, r2);
      seen := PsccDetail(rec);
    }

    /** `np.var(data_set) == 0`: numpy finds no variance exactly in a window of equal scores. */
    static method VarianceIsZero(window: seq<nat>) returns (zero: bool)
      requires |window| > 0
      ensures zero <==> Constant(window)
    {
      zero := Variance(window) == 0.0;
      ZeroVarianceIffConstant(window);
    }

    /** `check_motion` over the console replies `replies`; `ok` is false where the source raises
        on a reply without a motion score. */
    method CheckMotion(replies: nat -> string) returns (ok: bool)
      modifies this`motionList, this`motionScore
      ensures motionList == Poll(replies).samples
      ensures ok <==> Poll(replies).Stopped?
      ensures ok ==> motionScore == Poll(replies).score
      ensures !ok ==> motionScore == old(motionScore)
    {
      motionList := [];
      while true
        invariant |motionList| < MaxSamples
        invariant Poll(replies) == PollFrom(replies, motionList)
        invariant motionScore == old(motionScore)
        decreases MaxSamples - |motionList|
      {
        var reading := Extract(replies(|motionList|), MotionPattern);
        if reading.None? {
          PollFromNoScore(replies, motionList);
          return false;
        }
        PollFromStep(replies, motionList, reading.value);
        motionList := motionList + [reading.value];
        var settled := Settle(motionList);
        if settled.Some? {
          motionScore := settled.value;
          return true;
        }
      }
    }

    /** The decision `check_motion` takes right after appending a sample: keep polling below ten
        samples, stop with the truncated mean at twenty, and otherwise stop with the latest
        sample exactly when numpy finds no variance in the last ten. */
    static method Settle(samples: seq<nat>) returns (score: Option<nat>)
      ensures score == Settled(samples)
    {
      if |samples| < SampleRange {
        score := None;
      } else if |samples| == MaxSamples {
        score := Some(Sum(samples) / MaxSamples);
      } else {
        var window := samples[|samples| - SampleRange..];
        var still := VarianceIsZero(window);
        score := if still then Some(window[SampleRange - 1]) else None;
      }
    }

    /** `pscc(30.0, 'motion')`: play `scene.mp4` and poll its motion score. */
    method PsccMotion() returns (ok: bool)
      modifies this`motionList, this`motionScore
      ensures motionList == Poll(device.motionReplies(playing)).samples
      ensures ok <==> Poll(device.motionReplies(playing)).Stopped?
      ensures ok ==> motionScore == Poll(device.motionReplies(playing)).score
      ensures !ok ==> motionScore == old(motionScore)
    {
      ok := CheckMotion(device.motionReplies(playing));
    }

    /** Every end of a `make_motion` bracket is an end of the display or a probe that scored
        on the side of the target the end stands for. */
    predicate MotionBracket(lo: real, hi: real) {
      && (lo == 0.0 || (MotionAt(lo).Stopped? && MotionAt(lo).score < motionTarget))
      && (hi == HorRes as real || (MotionAt(hi).Stopped? && MotionAt(hi).score > motionTarget))
    }

    /** With a monotone device the bisection never loses a solution: every length on the display
        that meets the motion target lies inside such a bracket. */
    lemma BracketKeepsTarget(lo: real, hi: real, s: real)
      requires MonotoneMotion() && MotionBracket(lo, hi)
      requires 0.0 <= s <= HorRes as real && HitsMotionTarget(s)
      ensures lo <= s <= hi
    {
    }

    /** `probes` holds motion polls the script has made: each is the poll of its length. */
    ghost predicate Recorded(probes: map<real, PollResult>) {
      forall x {:trigger MotionAt(x)} :: x in probes ==> probes[x] == MotionAt(x)
    }

    /** One probe of `make_motion`: `mo_size` is set, the scene made with it and its motion polled;
        the poll is added to the record `probes`. */
    method ProbeMotion(size: real, ghost probes: map<real, PollResult>) returns (ok: bool, ghost polled: map<real, PollResult>)
      requires Recorded(probes)
      modifies this`moSize, this`playing, this`frames, this`motionList, this`motionScore
      ensures moSize == size && playing == MotionScene(size) && frames == FrameSchedule()
      ensures Recorded(polled) && size in polled && polled == probes[size := polled[size]]
      ensures motionList == polled[size].samples
      ensures ok <==> polled[size].Stopped?
      ensures ok ==> motionScore == polled[size].score
      ensures !ok ==> motionScore == old(motionScore)
    {
      moSize := size;
      MakeScene(moSize, DefaultFineness, NoRect, NoRect);
      ok := PsccMotion();
      polled := probes[size := MotionAt(size)];
    }

    /** The bracket of `make_motion` read off the probes made so far: `probes[x]` is the motion
        poll of the probe of length `x`. */
    predicate ProbedBracket(probes: map<real, PollResult>, lo: real, hi: real) {
      && (lo == 0.0 || (lo in probes && probes[lo].Stopped? && probes[lo].score < motionTarget))
      && (hi == HorRes as real || (hi in probes && probes[hi].Stopped? && probes[hi].score > motionTarget))
    }

    /** One round of `make_motion`: probe the midpoint of the bracket `[x1, x2]`; unless the poll
        breaks off or scores the motion target exactly, the midpoint replaces the end on the side
        its score fell, giving the bracket `[y1, y2]`. */
    method MotionRound(x1: real, x2: real, ghost probes: map<real, PollResult>)
      returns (ok: bool, y1: real, y2: real, ghost polled: map<real, PollResult>)
      requires 0.0 <= x1 < x2 <= HorRes as real && Recorded(probes) && ProbedBracket(probes, x1, x2)
      modifies this`moSize, this`playing, this`frames, this`motionList, this`motionScore
      ensures moSize == (x1 + x2) / 2.0 && playing == MotionScene(moSize) && frames == FrameSchedule()
      ensures Recorded(polled) && moSize in polled && polled == probes[moSize := polled[moSize]]
      ensures motionList == polled[moSize].samples
      ensures ok <==> polled[moSize].Stopped?
      ensures ok ==> motionScore == polled[moSize].score
      ensures !ok ==> motionScore == old(motionScore)
      ensures !ok || motionScore == motionTarget ==> y1 == x1 && y2 == x2
      ensures ok && motionScore != motionTarget ==>
        && 0.0 <= y1 < y2 <= HorRes as real && y2 - y1 == (x2 - x1) / 2.0
        && ProbedBracket(polled, y1, y2) && (moSize == y1 || moSize == y2)
    {
      var mid := (x1 + x2) / 2.0;
      ok, polled := ProbeMotion(mid, probes);
      y1, y2 := x1, x2;
      if !ok || motionScore == motionTarget {
        return;
      }
      if motionScore > motionTarget {
        y2 := mid;
      } else {
        y1 := mid;
      }
    }

    /** `make_motion`: bisection on the length of the motion object until a probe scores exactly
        the motion target. `[lo, hi]` is the last bracket, the full width halved `narrowings`
        times, and `previous` the length probed before the last probe; at most `fuel` probes
        are made. */
    method MakeMotion(fuel: nat) returns (run: Run, ghost lo: real, ghost hi: real, ghost narrowings: nat, ghost previous: real)
      modifies this`moSize, this`playing, this`frames, this`motionList, this`motionScore
      ensures 0.0 <= lo < hi <= HorRes as real
      ensures hi - lo == Halved(HorRes as real, narrowings)
      ensures MotionBracket(lo, hi)
      ensures fuel == 0 ==>
        && moSize == old(moSize) && playing == old(playing) && frames == old(frames)
        && motionList == old(motionList) && motionScore == old(motionScore)
      ensures fuel > 0 ==>
        && playing == MotionScene(moSize) && frames == FrameSchedule()
        && motionList == MotionAt(moSize).samples
      ensures run == Finished ==>
        && moSize == (lo + hi) / 2.0
        && HitsMotionTarget(moSize)
        && motionScore == motionTarget
      ensures run == Crashed ==> moSize == (lo + hi) / 2.0 && MotionAt(moSize).NoScore?
      ensures run == Crashed && narrowings == 0 ==> motionScore == old(motionScore)
      ensures run == Crashed && narrowings > 0 ==>
        && (previous == lo || previous == hi)
        && MotionAt(previous).Stopped? && motionScore == MotionAt(previous).score
      ensures run == FuelSpent ==> narrowings == fuel
      ensures run == FuelSpent && fuel > 0 ==>
        && (moSize == lo || moSize == hi)
        && MotionAt(moSize).Stopped? && motionScore == MotionAt(moSize).score && motionScore != motionTarget
    {
      var x1: real := 0.0;
      var x2: real := HorRes as real;
      var left: nat := fuel;
      ghost var probes: map<real, PollResult> := map[];
      lo, hi, narrowings, previous := x1, x2, 0, moSize;
      while true
        invariant lo == x1 && hi == x2 && narrowings + left == fuel
        invariant 0.0 <= x1 < x2 <= HorRes as real
        invariant x2 - x1 == Halved(HorRes as real, narrowings)
        invariant Recorded(probes) && ProbedBracket(probes, x1, x2)
        invariant left == fuel ==>
          && moSize == old(moSize) && playing == old(playing) && frames == old(frames)
          && motionList == old(motionList) && motionScore == old(motionScore)
        invariant left < fuel ==>
          && (moSize == x1 || moSize == x2) && moSize in probes
          && playing == MotionScene(moSize) && frames == FrameSchedule()
          && motionList == probes[moSize].samples
          && probes[moSize].Stopped? && motionScore == probes[moSize].score && motionScore != motionTarget
        decreases left
      {
        if left == 0 {
          return FuelSpent, lo, hi, narrowings, previous;
        }
        left := left - 1;
        previous := moSize;
        var ok;
        ok, x1, x2, probes := MotionRound(x1, x2, probes);
        if !ok {
          return Crashed, lo, hi, narrowings, previous;
        }
        if motionScore == motionTarget {
          return Finished, lo, hi, narrowings, previous;
        }
        HalvedStep(HorRes as real, narrowings);
        narrowings := narrowings + 1;
        lo, hi := x1, x2;
      }
    }

    /** One pass of the first loop of `hd_delta`: raise the fineness by one, make and measure
        the scene; the rise's trace, begun with the scores `start` and `startLow`, grows by that
        probe. */
    method HdRiseStep(ghost start: Option<nat>, ghost startLow: Option<nat>, ghost probes: seq<int>,
                      ghost highs: seq<nat>, ghost lows: seq<Option<nat>>, ghost rec: map<Scene, Reading>)
      returns (ghost probes2: seq<int>, ghost highs2: seq<nat>, ghost lows2: seq<Option<nat>>, ghost seen: map<Scene, Reading>)
      requires highDetail.Some? && DetailRecorded(rec)
      requires HighTrace(rec, moSize, rect1, rect2, probes, start, highs, lows)
      requires highDetail == Prior(start, highs, |highs|) && lowDetail == Latest(startLow, lows)
      modifies this`fineness, this`playing, this`frames, this`highDetail, this`lowDetail
      ensures fineness == old(fineness) + 1 && highDetail.Some?
      ensures probes2 == probes + [fineness] && highs2 == highs + [highDetail.value] && |lows2| == |lows| + 1
      ensures HighTrace(seen, moSize, rect1, rect2, probes2, start, highs2, lows2)
      ensures highDetail == Prior(start, highs2, |highs2|) && lowDetail == Latest(startLow, lows2)
      ensures DetailRecorded(seen) && Grows(rec, seen)
      ensures playing == Scene(moSize, fineness, rect1, rect2) && frames == FrameSchedule()
    {
      fineness := fineness + 1;
      seen := ProbeDetail(moSize, fineness, rect1, rect2, rec);
      ghost var found := seen[playing].low;
      HighTraceStep(rec, seen, moSize, rect1, rect2, probes, start, highs, lows, fineness, highDetail.value, found);
      LatestStep(startLow, lows, found);
      probes2, highs2, lows2 := probes + [fineness], highs + [highDetail.value], lows + [found];
    }

    /** The first loop of `hd_delta`: step the fineness up by one per probe until the distance
        to the high detail target differs from `Gap(old(highDetail).value)`, the distance before
        the search; a larger distance sets the direction down, a smaller one up. `probes` are the
        finenesses measured, `highs` the high scores they left and `lows` the low scores they
        found. */
    method HdRise(fuel: nat, ghost rec: map<Scene, Reading>)
      returns (run: Run, left: nat, ghost probes: seq<int>, ghost highs: seq<nat>, ghost lows: seq<Option<nat>>,
               ghost seen: map<Scene, Reading>)
      requires highDetail.Some? && DetailRecorded(rec)
      modifies this`fineness, this`direction, this`playing, this`frames, this`highDetail, this`lowDetail
      ensures run != Crashed && |probes| == |highs| && |probes| + left == fuel
      ensures forall k :: 0 <= k < |probes| ==> probes[k] == old(fineness) + k + 1
      ensures fineness == old(fineness) + |probes|
      ensures forall k :: 0 <= k < |highs| - 1 ==> Gap(highs[k]) == Gap(old(highDetail).value)
      ensures DetailRecorded(seen) && Grows(rec, seen)
      ensures HighTrace(seen, moSize, rect1, rect2, probes, old(highDetail), highs, lows)
      ensures highDetail == Prior(old(highDetail), highs, |highs|) && lowDetail == Latest(old(lowDetail), lows)
      ensures probes == [] ==> playing == old(playing) && frames == old(frames)
      ensures probes != [] ==> playing == Scene(moSize, fineness, rect1, rect2) && frames == FrameSchedule()
      ensures run == FuelSpent ==>
        && |probes| == fuel
        && direction == old(direction)
        && forall k :: 0 <= k < |highs| ==> Gap(highs[k]) == Gap(old(highDetail).value)
      ensures run == Finished ==>
        && probes != []
        && Gap(highs[|highs| - 1]) != Gap(old(highDetail).value)
        && direction == (if Gap(highs[|highs| - 1]) > Gap(old(highDetail).value) then -1 else 1)
    {
      probes, highs, lows, seen := [], [], [], rec;
      var deltaI := Gap(highDetail.value);
      left := fuel;
      while true
        invariant highDetail.Some? && |probes| == |highs| && |probes| + left == fuel
        invariant fineness == old(fineness) + |probes| && direction == old(direction)
        invariant forall k :: 0 <= k < |probes| ==> probes[k] == old(fineness) + k + 1
        invariant forall k :: 0 <= k < |highs| ==> Gap(highs[k]) == deltaI
        invariant highDetail == Prior(old(highDetail), highs, |highs|) && lowDetail == Latest(old(lowDetail), lows)
        invariant DetailRecorded(seen) && Grows(rec, seen)
        invariant HighTrace(seen, moSize, rect1, rect2, probes, old(highDetail), highs, lows)
        invariant probes == [] ==> playing == old(playing) && frames == old(frames)
        invariant probes != [] ==> playing == Scene(moSize, fineness, rect1, rect2) && frames == FrameSchedule()
        decreases left
      {
        if left == 0 {
          return FuelSpent, left, probes, highs, lows, seen;
        }
        left := left - 1;
        probes, highs, lows, seen := HdRiseStep(old(highDetail), old(lowDetail), probes, highs, lows, seen);
        var delta := Gap(highDetail.value);
        if delta > deltaI {
          direction := -1;
          return Finished, left, probes, highs, lows, seen;
        } else if delta < deltaI {
          direction := 1;
          return Finished, left, probes, highs, lows, seen;
        }
      }
    }

    /** The trace of `hd_delta`'s descent: `steps[k]` is the fineness `k + 1` units in `dir`
        from `from`, `scores[k]` the high detail score held after measuring it (motion object
        `size`, rectangles `r1` and `r2`, starting from the score `start`), `deltas[k]` that
        score's distance to the target and `lows[k]` the low score the measurement found. Every
        fineness measured was one cairo could draw. */
    ghost predicate DescentTrace(seen: map<Scene, Reading>, size: real, r1: Rect, r2: Rect, from: int, dir: int,
                                 start: Option<nat>, steps: seq<int>, scores: seq<nat>, deltas: seq<nat>, lows: seq<Option<nat>>)
    {
      && |steps| == |scores| == |deltas|
      && (forall k :: 0 <= k < |steps| ==> steps[k] == Stepped(from, k + 1, dir) && Drawable(steps[k]))
      && (forall k :: 0 <= k < |deltas| ==> deltas[k] == Gap(scores[k]))
      && HighTrace(seen, size, r1, r2, steps, start, scores, lows)
    }

    /** One pass of the second loop of `hd_delta`: step the fineness in `direction`, make and
        measure the scene and compute `delta`, its distance to the target; when that distance
        grew past `previous`, the one before it, step the fineness back (`grew`). The descent's
        trace, begun at fineness `from` with the scores `start` and `startLow`, grows by that
        probe. The caller has checked that the next fineness can be drawn. */
    method HdDescendStep(previous: nat, ghost from: int, ghost start: Option<nat>, ghost startLow: Option<nat>,
                         ghost d0: nat, ghost steps: seq<int>, ghost scores: seq<nat>, ghost deltas: seq<nat>,
                         ghost lows: seq<Option<nat>>, ghost rec: map<Scene, Reading>)
      returns (delta: nat, grew: bool, ghost steps2: seq<int>, ghost scores2: seq<nat>, ghost deltas2: seq<nat>,
               ghost lows2: seq<Option<nat>>, ghost seen: map<Scene, Reading>)
      requires highDetail.Some? && (direction == 1 || direction == -1) && DetailRecorded(rec)
      requires DescentTrace(rec, moSize, rect1, rect2, from, direction, start, steps, scores, deltas, lows)
      requires fineness == Stepped(from, |steps|, direction) && highDetail == Prior(start, scores, |scores|)
      requires lowDetail == Latest(startLow, lows)
      requires Descends(d0, deltas) && previous == LastOr(d0, deltas)
      requires Drawable(fineness + direction)
      modifies this`fineness, this`playing, this`frames, this`highDetail, this`lowDetail
      ensures grew <==> delta > previous
      ensures highDetail.Some? && DetailRecorded(seen) && Grows(rec, seen) && frames == FrameSchedule()
      ensures steps2 == steps + [old(fineness) + direction] && scores2 == scores + [highDetail.value] && deltas2 == deltas + [delta]
      ensures DescentTrace(seen, moSize, rect1, rect2, from, direction, start, steps2, scores2, deltas2, lows2)
      ensures highDetail == Prior(start, scores2, |scores2|) && delta == LastOr(d0, deltas2)
      ensures lowDetail == Latest(startLow, lows2)
      ensures !grew ==>
        && fineness == Stepped(from, |steps2|, direction)
        && Descends(d0, deltas2)
        && playing == Scene(moSize, fineness, rect1, rect2)
      ensures grew ==>
        && fineness == Stepped(from, |steps2| - 1, direction)
        && Overshoots(d0, deltas2)
        && playing == Scene(moSize, steps2[|steps2| - 1], rect1, rect2)
    {
      fineness := fineness + direction;
      seen := ProbeDetail(moSize, fineness, rect1, rect2, rec);
      ghost var found := seen[playing].low;
      HighTraceStep(rec, seen, moSize, rect1, rect2, steps, start, scores, lows, fineness, highDetail.value, found);
      LatestStep(startLow, lows, found);
      delta := Gap(highDetail.value);
      steps2, scores2, deltas2, lows2 := steps + [fineness], scores + [highDetail.value], deltas + [delta], lows + [found];
      assert deltas2[..|deltas|] == deltas;
      DescendsStep(d0, deltas, delta);
      grew := delta > previous;
      if grew {
        fineness := fineness - direction;
      }
    }

    /** The second loop of `hd_delta`: keep stepping the fineness in `direction` while the
        distance to the high detail target does not grow (an equal distance neither stops nor
        reverses the search); on the first growth, step back once. `steps` are the finenesses
        measured, `scores` the high detail scores they left, `deltas` their distances to the
        target, the `delta` the source computes after each probe, and `lows` the low scores the
        probes found. A step to a fineness cairo cannot draw raises in `make_scene`. */
    method HdDescend(fuel: nat, ghost rec: map<Scene, Reading>)
      returns (run: Run, ghost steps: seq<int>, ghost scores: seq<nat>, ghost deltas: seq<nat>,
               ghost lows: seq<Option<nat>>, ghost seen: map<Scene, Reading>)
      requires highDetail.Some? && (direction == 1 || direction == -1) && DetailRecorded(rec)
      modifies this`fineness, this`playing, this`frames, this`highDetail, this`lowDetail
      ensures |steps| <= fuel
      ensures DescentTrace(seen, moSize, rect1, rect2, old(fineness), direction, old(highDetail), steps, scores, deltas, lows)
      ensures DetailRecorded(seen) && Grows(rec, seen)
      ensures highDetail == Prior(old(highDetail), scores, |scores|) && lowDetail == Latest(old(lowDetail), lows)
      ensures steps == [] ==> playing == old(playing) && frames == old(frames)
      ensures steps != [] ==> frames == FrameSchedule()
      ensures run == FuelSpent ==>
        && |steps| == fuel
        && Descends(Gap(old(highDetail).value), deltas)
        && fineness == Stepped(old(fineness), fuel, direction)
        && (steps != [] ==> playing == Scene(moSize, fineness, rect1, rect2))
      ensures run == Finished ==>
        && steps != []
        && Overshoots(Gap(old(highDetail).value), deltas)
        && fineness == Stepped(old(fineness), |steps| - 1, direction)
        && playing == Scene(moSize, steps[|steps| - 1], rect1, rect2)
      ensures run == Crashed ==>
        && |steps| < fuel
        && Descends(Gap(old(highDetail).value), deltas)
        && fineness == Stepped(old(fineness), |steps| + 1, direction) && !Drawable(fineness)
    {
      steps, scores, deltas, lows, seen := [], [], [], [], rec;
      ghost var d0 := Gap(highDetail.value);
      var delta := Gap(highDetail.value);
      if fuel == 0 {
        return FuelSpent, steps, scores, deltas, lows, seen;
      }
      if !Drawable(fineness + direction) {
        fineness := fineness + direction;
        return Crashed, steps, scores, deltas, lows, seen;
      }
      var left: nat := fuel;
      while true
        invariant highDetail.Some? && |steps| + left == fuel && left > 0 && Drawable(fineness + direction)
        invariant DescentTrace(seen, moSize, rect1, rect2, old(fineness), direction, old(highDetail), steps, scores, deltas, lows)
        invariant fineness == Stepped(old(fineness), |steps|, direction)
        invariant highDetail == Prior(old(highDetail), scores, |scores|) && delta == LastOr(d0, deltas)
        invariant lowDetail == Latest(old(lowDetail), lows)
        invariant Descends(d0, deltas)
        invariant DetailRecorded(seen) && Grows(rec, seen)
        decreases left
      {
        left := left - 1;
        var grew;
        delta, grew, steps, scores, deltas, lows, seen :=
          HdDescendStep(delta, old(fineness), old(highDetail), old(lowDetail), d0, steps, scores, deltas, lows, seen);
        if grew {
          return Finished, steps, scores, deltas, lows, seen;
        }
        if left == 0 {
          return FuelSpent, steps, scores, deltas, lows, seen;
        }
        if !Drawable(fineness + direction) {
          fineness := fineness + direction;
          return Crashed, steps, scores, deltas, lows, seen;
        }
      }
    }

    /** `hd_delta`: from the current high detail score, step the fineness up until the distance
        to the high detail target changes (`rise` are the finenesses measured, `risen` the
        scores they left, `riseLows` the low scores they found; `turned` tells that a direction
        was set), then keep stepping that way while the distance does not grow (`steps`,
        `scores`, `deltas`, `stepLows`); on the first growth, go back one step. At most `fuel`
        probes are made. */
    method HdDelta(fuel: nat)
      returns (run: Run, ghost rise: seq<int>, ghost risen: seq<nat>, ghost riseLows: seq<Option<nat>>, ghost turned: bool,
               ghost steps: seq<int>, ghost scores: seq<nat>, ghost deltas: seq<nat>, ghost stepLows: seq<Option<nat>>,
               ghost seen: map<Scene, Reading>)
      modifies this`fineness, this`direction, this`playing, this`frames, this`highDetail, this`lowDetail
      ensures DetailRecorded(seen)
      ensures old(highDetail).None? ==> run == Crashed && rise == [] && fineness == old(fineness) && highDetail == old(highDetail)
      ensures !turned ==> steps == [] && direction == old(direction)
      ensures |rise| == |risen| == |riseLows| && |steps| == |scores| == |deltas| == |stepLows|
      ensures run == Crashed && old(highDetail).Some? ==>
        && turned && rise != [] && Descends(Gap(risen[|risen| - 1]), deltas)
        && fineness == Stepped(rise[|rise| - 1], |steps| + 1, direction) && !Drawable(fineness)
      ensures old(highDetail).Some? ==>
        && HighTrace(seen, moSize, rect1, rect2, rise, old(highDetail), risen, riseLows)
        && HighTrace(seen, moSize, rect1, rect2, steps, Prior(old(highDetail), risen, |risen|), scores, stepLows)
      ensures highDetail == Prior(Prior(old(highDetail), risen, |risen|), scores, |scores|)
      ensures lowDetail == Latest(Latest(old(lowDetail), riseLows), stepLows)
      ensures rise == [] ==> playing == old(playing) && frames == old(frames)
      ensures rise != [] ==> frames == FrameSchedule()
      ensures forall k :: 0 <= k < |rise| ==> rise[k] == old(fineness) + k + 1
      ensures old(highDetail).Some? ==> forall k :: 0 <= k < |risen| - 1 ==> Gap(risen[k]) == Gap(old(highDetail).value)
      ensures old(highDetail).Some? && !turned ==>
        && run == FuelSpent
        && |rise| == fuel
        && fineness == old(fineness) + fuel
        && forall k :: 0 <= k < |risen| ==> Gap(risen[k]) == Gap(old(highDetail).value)
      ensures turned ==>
        && old(highDetail).Some?
        && rise != []
        && Gap(risen[|risen| - 1]) != Gap(old(highDetail).value)
        && direction == (if Gap(risen[|risen| - 1]) > Gap(old(highDetail).value) then -1 else 1)
        && (forall k :: 0 <= k < |steps| ==> steps[k] == Stepped(rise[|rise| - 1], k + 1, direction) && Drawable(steps[k]))
        && (forall k :: 0 <= k < |deltas| ==> deltas[k] == Gap(scores[k]))
      ensures run == FuelSpent ==> |rise| + |steps| == fuel
      ensures run == FuelSpent && rise != [] ==> playing == Scene(moSize, fineness, rect1, rect2)
      ensures run == FuelSpent && turned ==>
        && Descends(Gap(risen[|risen| - 1]), deltas)
        && fineness == Stepped(rise[|rise| - 1], |steps|, direction)
      ensures run == Finished ==>
        && turned
        && steps != []
        && Overshoots(Gap(risen[|risen| - 1]), deltas)
        && fineness == Stepped(rise[|rise| - 1], |steps| - 1, direction)
        && playing == Scene(moSize, steps[|steps| - 1], rect1, rect2)
    {
      rise, risen, riseLows, turned, steps, scores, deltas, stepLows, seen := [], [], [], false, [], [], [], [], map[];
      if highDetail.None? {
        return Crashed, rise, risen, riseLows, turned, steps, scores, deltas, stepLows, seen;
      }
      var left;
      run, left, rise, risen, riseLows, seen := HdRise(fuel, seen);
      if run == FuelSpent {
        return;
      }
      turned := true;
      ghost var rose := seen;
      run, steps, scores, deltas, stepLows, seen := HdDescend(left, seen);
      HighTraceGrows(rose, seen, moSize, rect1, rect2, rise, old(highDetail), risen, riseLows);
    }

    /** `ld_rect.tune_rect(rectNum)`: rebuild the selected rectangle from its position and
        length, make the scene with both rectangles and measure its detail. */
    method TuneRect(rectNum: int, ghost rec: map<Scene, Reading>) returns (ghost seen: map<Scene, Reading>)
      requires rectNum == 1 || rectNum == 2
      requires |rects| == |poss| == |lengths| == 2 && DetailRecorded(rec)
      modifies this`rects, this`rect1, this`rect2, this`playing, this`frames, this`highDetail, this`lowDetail
      ensures rects == old(rects)[rectNum - 1 := Rect(poss[rectNum - 1], 0.0, lengths[rectNum - 1], height as real)]
      ensures rect1 == rects[0] && rect2 == rects[1]
      ensures playing == TunedScene(moSize, fineness, rectNum, rects[rectNum - 1], rects[2 - rectNum]) && frames == FrameSchedule()
      ensures DetailRecorded(seen) && Grows(rec, seen) && playing in seen
      ensures highDetail == Keep(seen[playing].high, old(highDetail))
      ensures lowDetail == Keep(seen[playing].low, old(lowDetail))
    {
      var i := rectNum - 1;
      rects := rects[i := Rect(poss[i], 0.0, lengths[i], height as real)];
      rect1 := rects[0];
      rect2 := rects[1];
      seen := ProbeDetail(moSize, fineness, rect1, rect2, rec);
    }

    /** After `tune_rect(rectNum)`: the selected rectangle is rebuilt from its position and
        length, both rectangle fields hold the list's rectangles and the scene made holds them. */
    predicate Tuned(rectNum: int)
      requires rectNum == 1 || rectNum == 2
      reads this`rects, this`poss, this`lengths, this`rect1, this`rect2, this`playing, this`frames
      reads this`moSize, this`fineness, this`height
    {
      && |rects| == |poss| == |lengths| == 2
      && rects[rectNum - 1] == Rect(poss[rectNum - 1], 0.0, lengths[rectNum - 1], height as real)
      && rect1 == rects[0] && rect2 == rects[1] && frames == FrameSchedule()
      && playing == TunedScene(moSize, fineness, rectNum, rects[rectNum - 1], rects[2 - rectNum])
    }

    /** The interval `bisection(rectNum)` starts from: from the rectangle's position to
        `x_limit` for the first rectangle and to `hor_res` for the second. */
    function BisectionStart(rectNum: int): Span
      requires rectNum == 1 || rectNum == 2
      requires |poss| == 2
      reads this`poss, this`xLimit
    {
      Span(poss[rectNum - 1], xLimit + (rectNum - 1) as real * (HorRes as real - xLimit))
    }

    /** The probe of a round of `ld_rect.bisection(rectNum)`: the selected rectangle is made to
        end at the midpoint of the interval `s`, tuned and measured. `band` is the band the new
        low score falls in, or None when no low score is held (the source's `TypeError`), and
        `next` the interval the search goes on with. The box trace `spans`, `lows`, `highs`
        (whose last interval is `s`) grows by that probe. */
    method BisectionProbe(rectNum: int, s: Span, ghost other: Rect, ghost start: Option<nat>,
                          ghost spans: seq<Span>, ghost lows: seq<nat>, ghost highs: seq<Option<nat>>,
                          ghost rec: map<Scene, Reading>)
      returns (band: Option<Band>, next: Span, ghost seen: map<Scene, Reading>)
      requires rectNum == 1 || rectNum == 2
      requires |rects| == |poss| == |lengths| == 2 && rects[2 - rectNum] == other
      requires DetailRecorded(rec)
      requires BoxTrace(rec, moSize, fineness, rectNum, poss[rectNum - 1], height as real, other, spans, start, lows, highs)
      requires spans[|lows|] == s && lowDetail == Prior(start, lows, |lows|)
      modifies this`lengths, this`rects, this`rect1, this`rect2, this`playing, this`frames, this`highDetail, this`lowDetail
      ensures lengths == old(lengths)[rectNum - 1 := Mid(s) - poss[rectNum - 1]]
      ensures rects == old(rects)[rectNum - 1 := Rect(poss[rectNum - 1], 0.0, lengths[rectNum - 1], height as real)]
      ensures rect1 == rects[0] && rect2 == rects[1] && frames == FrameSchedule()
      ensures playing == TunedScene(moSize, fineness, rectNum, rects[rectNum - 1], other)
      ensures DetailRecorded(seen) && Grows(rec, seen) && playing in seen
      ensures highDetail == Keep(seen[playing].high, old(highDetail))
      ensures band.None? <==> lowDetail.None?
      ensures band.None? ==>
        && start.None? && lows == [] && seen[playing].low.None?
        && BoxTrace(seen, moSize, fineness, rectNum, poss[rectNum - 1], height as real, other, spans, start, lows, highs)
      ensures band.Some? ==>
        && band.value == LowFirst(lowDetail.value, lowDetailTarget, tolerance)
        && next == Narrow(s, band.value)
        && BoxTrace(seen, moSize, fineness, rectNum, poss[rectNum - 1], height as real, other,
                    spans + [Narrow(s, band.value)], start, lows + [lowDetail.value], highs + [seen[playing].high])
    {
      var i := rectNum - 1;
      lengths := lengths[i := (s.hi + s.lo) / 2.0 - poss[i]];
      seen := TuneRect(rectNum, rec);
      if lowDetail.None? {
        BoxTraceGrows(rec, seen, moSize, fineness, rectNum, poss[i], height as real, other, spans, start, lows, highs);
        return None, s, seen;
      }
      band := Some(LowFirst(lowDetail.value, lowDetailTarget, tolerance));
      next := s;
      if band.value == Below {
        next := Span(lengths[i] + poss[i], s.hi);
      } else if band.value == Above {
        next := Span(s.lo, lengths[i] + poss[i]);
      }
      BoxTraceStep(rec, seen, moSize, fineness, rectNum, poss[i], height as real, other, spans, start, lows, highs,
                   Narrow(s, band.value), lowDetail.value, seen[playing].high);
    }

    /** No low score of `lows` is within `tolerance` of its target. */
    predicate NoneWithin(lows: seq<nat>) {
      forall k :: 0 <= k < |lows| ==> LowFirst(lows[k], lowDetailTarget, tolerance) != Within
    }

    /** One round of `ld_rect.bisection(rectNum)`: probe the midpoint of `s`, the last interval
        of `spans`, and extend the search's trace by it; `next` is the interval the search goes
        on with. The high detail score is the latest of `highs` found since `highStart`. */
    method BisectionRound(rectNum: int, s: Span, ghost other: Rect, ghost start: Option<nat>, ghost highStart: Option<nat>,
                          ghost spans: seq<Span>, ghost lows: seq<nat>, ghost highs: seq<Option<nat>>,
                          ghost rec: map<Scene, Reading>)
      returns (band: Option<Band>, next: Span, ghost spans2: seq<Span>, ghost lows2: seq<nat>,
               ghost highs2: seq<Option<nat>>, ghost seen: map<Scene, Reading>)
      requires rectNum == 1 || rectNum == 2
      requires |rects| == |poss| == |lengths| == 2 && rects[2 - rectNum] == other
      requires DetailRecorded(rec) && Narrowing(spans, lows, lowDetailTarget, tolerance) && NoneWithin(lows)
      requires BoxTrace(rec, moSize, fineness, rectNum, poss[rectNum - 1], height as real, other, spans, start, lows, highs)
      requires spans[|lows|] == s && lowDetail == Prior(start, lows, |lows|)
      requires highDetail == Latest(highStart, highs)
      modifies this`lengths, this`rects, this`rect1, this`rect2, this`playing, this`frames, this`highDetail, this`lowDetail
      ensures |rects| == |lengths| == 2
      ensures rects[2 - rectNum] == other && lengths[2 - rectNum] == old(lengths)[2 - rectNum]
      ensures lengths[rectNum - 1] == Mid(s) - poss[rectNum - 1]
      ensures Tuned(rectNum)
      ensures DetailRecorded(seen) && Grows(rec, seen) && playing in seen
      ensures Narrowing(spans2, lows2, lowDetailTarget, tolerance) && spans2[0] == spans[0]
      ensures BoxTrace(seen, moSize, fineness, rectNum, poss[rectNum - 1], height as real, other, spans2, start, lows2, highs2)
      ensures lowDetail == Prior(start, lows2, |lows2|)
      ensures band.None? ==>
        && start.None? && lows == [] && spans2 == spans && lows2 == lows && highs2 == highs
        && seen[playing].low.None?
        && highDetail == Keep(seen[playing].high, Latest(highStart, highs))
      ensures band.Some? ==>
        && |lows2| == |lows| + 1 && spans2[|lows|] == s && spans2[|lows2|] == next
        && highDetail == Latest(highStart, highs2)
      ensures band.Some? && band.value != Within ==> NoneWithin(lows2)
      ensures band.Some? && band.value == Within ==>
        NoneWithin(lows2[..|lows2| - 1]) && LowFirst(lows2[|lows2| - 1], lowDetailTarget, tolerance) == Within
    {
      band, next, seen := BisectionProbe(rectNum, s, other, start, spans, lows, highs, rec);
      spans2, lows2, highs2 := spans, lows, highs;
      if band.Some? {
        NarrowingStep(spans, lows, lowDetailTarget, tolerance, lowDetail.value);
        LatestStep(highStart, highs, seen[playing].high);
        spans2, lows2, highs2 := spans + [next], lows + [lowDetail.value], highs + [seen[playing].high];
        assert lows2[..|lows|] == lows;
      }
    }

    /** `ld_rect.bisection(rectNum)`: bisect the right-hand end of the selected rectangle until
        the low detail score is within `tolerance` of its target. `spans` are the intervals of
        right-hand ends searched, the end tried in each round being the midpoint of the
        interval before it, `lows` the low scores the rounds left and `highs` the high scores
        they found; at most `fuel` probes are made. */
    method Bisection(rectNum: int, fuel: nat, ghost rec: map<Scene, Reading>)
      returns (run: Run, ghost spans: seq<Span>, ghost lows: seq<nat>, ghost highs: seq<Option<nat>>,
               ghost seen: map<Scene, Reading>)
      requires rectNum == 1 || rectNum == 2
      requires |rects| == |poss| == |lengths| == 2 && DetailRecorded(rec)
      modifies this`lengths, this`rects, this`rect1, this`rect2, this`playing, this`frames, this`highDetail, this`lowDetail
      ensures |rects| == |lengths| == 2
      ensures lengths[2 - rectNum] == old(lengths)[2 - rectNum] && rects[2 - rectNum] == old(rects)[2 - rectNum]
      ensures |lows| <= fuel
      ensures Narrowing(spans, lows, lowDetailTarget, tolerance) && spans[0] == BisectionStart(rectNum)
      ensures DetailRecorded(seen) && Grows(rec, seen)
      ensures BoxTrace(seen, moSize, fineness, rectNum, poss[rectNum - 1], height as real, old(rects)[2 - rectNum],
                       spans, old(lowDetail), lows, highs)
      ensures lowDetail == Prior(old(lowDetail), lows, |lows|)
      ensures run != Crashed ==> highDetail == Latest(old(highDetail), highs)
      ensures fuel == 0 ==>
        && lengths == old(lengths) && rects == old(rects) && rect1 == old(rect1) && rect2 == old(rect2)
        && playing == old(playing) && frames == old(frames)
      ensures fuel > 0 ==> Tuned(rectNum)
      ensures run == Crashed ==>
        && old(lowDetail).None? && lows == [] && fuel > 0
        && lengths[rectNum - 1] == Mid(spans[0]) - poss[rectNum - 1]
        && playing in seen && seen[playing].low.None?
        && highDetail == Keep(seen[playing].high, old(highDetail))
      ensures run == FuelSpent ==> |lows| == fuel && NoneWithin(lows)
      ensures run == FuelSpent && fuel > 0 ==> lengths[rectNum - 1] == Mid(spans[|lows| - 1]) - poss[rectNum - 1]
      ensures run == Finished ==>
        && lows != []
        && NoneWithin(lows[..|lows| - 1])
        && LowFirst(lows[|lows| - 1], lowDetailTarget, tolerance) == Within
        && lengths[rectNum - 1] == Mid(spans[|lows| - 1]) - poss[rectNum - 1]
    {
      var i := rectNum - 1;
      var x1 := poss[i];
      var x2 := xLimit + i as real * (HorRes as real - xLimit);
      var s := Span(x1, x2);
      spans, lows, highs, seen := [s], [], [], rec;
      ghost var other, otherLength := rects[2 - rectNum], lengths[2 - rectNum];
      if fuel == 0 {
        return FuelSpent, spans, lows, highs, seen;
      }
      var left: nat := fuel;
      while true
        invariant |rects| == |lengths| == 2
        invariant lengths[2 - rectNum] == otherLength && rects[2 - rectNum] == other
        invariant |lows| + left == fuel
        invariant Narrowing(spans, lows, lowDetailTarget, tolerance)
        invariant spans[0] == BisectionStart(rectNum) && spans[|lows|] == s
        invariant NoneWithin(lows)
        invariant DetailRecorded(seen) && Grows(rec, seen)
        invariant BoxTrace(seen, moSize, fineness, rectNum, poss[rectNum - 1], height as real, other, spans, old(lowDetail), lows, highs)
        invariant lowDetail == Prior(old(lowDetail), lows, |lows|) && highDetail == Latest(old(highDetail), highs)
        invariant left > 0
        decreases left
      {
        left := left - 1;
        var band;
        band, s, spans, lows, highs, seen := BisectionRound(rectNum, s, other, old(lowDetail), old(highDetail), spans, lows, highs, seen);
        if band.None? {
          return Crashed, spans, lows, highs, seen;
        }
        if band.value == Within {
          return Finished, spans, lows, highs, seen;
        }
        if left == 0 {
          return FuelSpent, spans, lows, highs, seen;
        }
      }
    }

    /** The opening of `ld_rect()`: the rectangles get the screen's height, the first is laid
        across the whole of its room, `x_limit` long, the second is left empty where that room
        ends on the right, and the scene with both is tuned with `tune_rect(1)`. */
    method OpenRects(reach: nat, ghost rec: map<Scene, Reading>) returns (ghost seen: map<Scene, Reading>)
      requires DetailRecorded(rec)
      modifies this`height, this`xLimit, this`poss, this`lengths, this`rects, this`rect1, this`rect2
      modifies this`playing, this`frames, this`highDetail, this`lowDetail
      ensures height == VerRes && xLimit == HorRes as real / 2.0 - reach as real - BoxMotionMargin as real
      ensures poss == [0.0, HorRes as real - xLimit] && lengths == [xLimit, 0.0]
      ensures playing == Opening(moSize, fineness, xLimit) && rects == [playing.rect1, playing.rect2] && frames == FrameSchedule()
      ensures rect1 == rects[0] && rect2 == rects[1]
      ensures DetailRecorded(seen) && Grows(rec, seen) && playing in seen
      ensures highDetail == Keep(seen[playing].high, old(highDetail))
      ensures lowDetail == Keep(seen[playing].low, old(lowDetail))
    {
      height := VerRes;
      xLimit := HorRes as real / 2.0 - reach as real - BoxMotionMargin as real;
      lengths := [xLimit, 0.0];
      poss := [0.0, HorRes as real - xLimit];
      rect1 := Rect(poss[0], 0.0, lengths[0], height as real);
      rect2 := Rect(poss[1], 0.0, lengths[1], height as real);
      rects := [rect1, rect2];
      seen := TuneRect(1, rec);
    }

    /** `ld_rect()`: measure the opening scene, then bisect the second rectangle when its low
        detail score is below the band and the first when it is above. `reach` stands for
        `int(math.sqrt((mo_size/2)**2 + (mo_size_y/2)**2))`, the radius the turning motion
        object sweeps. `bisected` is the rectangle bisected (0 for none); `spans`, `lows` and
        `highs` are that bisection's intervals, low scores and high scores found, each
        bisection making at most `fuel` probes. */
    method LdRect(reach: nat, fuel: nat, ghost rec: map<Scene, Reading>)
      returns (run: Run, ghost opening: Scene, ghost first: Option<nat>, ghost bisected: int, ghost other: Rect,
               ghost spans: seq<Span>, ghost lows: seq<nat>, ghost highs: seq<Option<nat>>, ghost seen: map<Scene, Reading>)
      requires DetailRecorded(rec)
      modifies this`height, this`xLimit, this`poss, this`lengths, this`rects, this`rect1, this`rect2
      modifies this`playing, this`frames, this`highDetail, this`lowDetail
      ensures height == VerRes && xLimit == HorRes as real / 2.0 - reach as real - BoxMotionMargin as real
      ensures poss == [0.0, HorRes as real - xLimit] && |rects| == |lengths| == 2
      ensures opening == Opening(moSize, fineness, xLimit) && frames == FrameSchedule()
      ensures DetailRecorded(seen) && Grows(rec, seen) && opening in seen
      ensures first == Keep(seen[opening].low, old(lowDetail))
      ensures highDetail == Latest(Keep(seen[opening].high, old(highDetail)), highs)
      ensures run == Crashed <==> first.None?
      ensures first.None? ==> bisected == 0
      ensures first.Some? && LowFirst(first.value, lowDetailTarget, tolerance) == Within ==>
        run == Finished && bisected == 0
      ensures first.Some? && LowFirst(first.value, lowDetailTarget, tolerance) == Below ==> bisected == 2 && other == opening.rect1
      ensures first.Some? && LowFirst(first.value, lowDetailTarget, tolerance) == Above ==> bisected == 1 && other == opening.rect2
      ensures bisected == 0 || fuel == 0 ==>
        && lengths[0] == xLimit && lengths[1] == 0.0 && rects[0] == opening.rect1 && rects[1] == opening.rect2
        && rect1 == rects[0] && rect2 == rects[1] && playing == opening
      ensures bisected == 0 ==> lows == [] && highs == [] && lowDetail == first
      ensures bisected != 0 ==>
        && Narrowing(spans, lows, lowDetailTarget, tolerance) && spans[0] == BisectionStart(bisected)
        && |lows| <= fuel && lowDetail == Prior(first, lows, |lows|)
        && BoxTrace(seen, moSize, fineness, bisected, poss[bisected - 1], VerRes as real, other, spans, first, lows, highs)
        && rects[2 - bisected] == other && lengths[2 - bisected] == [xLimit, 0.0][2 - bisected]
      ensures bisected != 0 && fuel > 0 ==>
        && lows != [] && Tuned(bisected)
        && lengths[bisected - 1] == Mid(spans[|lows| - 1]) - poss[bisected - 1]
      ensures run == FuelSpent ==>
        bisected != 0 && |lows| == fuel && forall k :: 0 <= k < |lows| ==> LowFirst(lows[k], lowDetailTarget, tolerance) != Within
      ensures run == Finished ==>
        && lowDetail.Some? && Abs(lowDetail.value - lowDetailTarget) <= tolerance
        && rects[0] == Rect(poss[0], 0.0, lengths[0], VerRes as real) && rects[1] == Rect(poss[1], 0.0, lengths[1], VerRes as real)
        && rect1 == rects[0] && rect2 == rects[1] && playing == Scene(moSize, fineness, rect1, rect2)
        && (xLimit >= 0.0 ==> 0.0 <= lengths[0] <= xLimit && 0.0 <= lengths[1] <= xLimit)
    {
      seen := OpenRects(reach, rec);
      opening, first := playing, lowDetail;
      bisected, other, spans, lows, highs := 0, NoRect, [], [], [];
      if lowDetail.None? {
        return Crashed, opening, first, bisected, other, spans, lows, highs, seen;
      }
      run := Finished;
      var band := LowFirst(lowDetail.value, lowDetailTarget, tolerance);
      if band != Within {
        var rectNum := if band == Below then 2 else 1;
        bisected, other := rectNum, rects[2 - rectNum];
        ghost var measured := seen;
        run, spans, lows, highs, seen := Bisection(rectNum, fuel, seen);
        assert opening in seen && seen[opening] == measured[opening];
        if run == Finished && xLimit >= 0.0 {
          BisectedLength(spans, lows, lowDetailTarget, tolerance, poss[rectNum - 1], xLimit, |lows| - 1);
        }
      }
    }

    /** The tolerance classification of `high_detail_scenes`: make and measure the scene of the
        current fineness without rectangles, then judge its high detail score in the order
        within, above, below. `hsPass` says the score is within `tolerance` of its target; a
        score below the band lowers the fineness by one and measures again, which raises in
        `make_scene` when that fineness cannot be drawn. Without a high detail score the
        comparison raises. */
    method JudgeHighDetail(ghost rec: map<Scene, Reading>) returns (run: Run, hsPass: bool, ghost seen: map<Scene, Reading>)
      requires DetailRecorded(rec)
      modifies this`fineness, this`playing, this`frames, this`highDetail, this`lowDetail
      ensures DetailRecorded(seen) && Grows(rec, seen) && frames == FrameSchedule()
      ensures var bare := Scene(moSize, old(fineness), NoRect, NoRect);
        var judged := Keep(DetailAt(bare).high, old(highDetail));
        var firstLow := Keep(DetailAt(bare).low, old(lowDetail));
        && (run == Crashed <==>
              || judged.None?
              || (InsideFirst(judged.value, highDetailTarget, tolerance) == Below && !Drawable(old(fineness) - 1)))
        && run != FuelSpent
        && (judged.None? ==>
              && fineness == old(fineness) && playing == bare && !hsPass
              && highDetail == judged && lowDetail == firstLow)
        && (judged.Some? ==>
              && (hsPass <==> Abs(judged.value - highDetailTarget) <= tolerance)
              && (InsideFirst(judged.value, highDetailTarget, tolerance) == Below ==>
                    && fineness == old(fineness) - 1
                    && (Drawable(fineness) ==>
                          && playing == Scene(moSize, fineness, NoRect, NoRect)
                          && highDetail == Keep(DetailAt(playing).high, judged)
                          && lowDetail == Keep(DetailAt(playing).low, firstLow))
                    && (!Drawable(fineness) ==> playing == bare && highDetail == judged && lowDetail == firstLow))
              && (InsideFirst(judged.value, highDetailTarget, tolerance) != Below ==>
                    && fineness == old(fineness) && playing == bare
                    && highDetail == judged && lowDetail == firstLow))
    {
      seen := ProbeDetail(moSize, fineness, NoRect, NoRect, rec);
      hsPass := false;
      if highDetail.None? {
        return Crashed, hsPass, seen;
      }
      var band := InsideFirst(highDetail.value, highDetailTarget, tolerance);
      if band == Within {
        hsPass := true;
      } else if band == Below {
        fineness := fineness - 1;
        if !Drawable(fineness) {
          return Crashed, hsPass, seen;
        }
        seen := ProbeDetail(moSize, fineness, NoRect, NoRect, seen);
      }
      run := Finished;
    }

    /** One pass of the fineness loop of `low_detail_scenes`: measure the scene playing, print
        both detail scores, which raises when either was never read, then raise the fineness by
        one and make its scene. `below` tells whether the high score fell below its target.
        Before the first pass the scene playing was measured already, from the scores `start`
        and `startLow`, so measuring it again leaves them. */
    method FinenessPass(ghost start: Option<nat>, ghost startLow: Option<nat>, ghost fines: seq<int>,
                        ghost highs: seq<nat>, ghost lows: seq<Option<nat>>, ghost rec: map<Scene, Reading>)
      returns (crashed: bool, below: bool, ghost fines2: seq<int>, ghost highs2: seq<nat>,
               ghost lows2: seq<Option<nat>>, ghost seen: map<Scene, Reading>)
      requires DetailRecorded(rec) && HighTrace(rec, moSize, NoRect, NoRect, fines, start, highs, lows)
      requires highDetail == Prior(start, highs, |highs|) && lowDetail == Latest(startLow, lows)
      requires playing == Scene(moSize, fineness, NoRect, NoRect)
      requires highs == [] ==> Keep(DetailAt(playing).high, start) == start && Keep(DetailAt(playing).low, startLow) == startLow
      requires highs != [] ==> start.Some? && startLow.Some?
      modifies this`fineness, this`playing, this`frames, this`highDetail, this`lowDetail
      ensures DetailRecorded(seen) && Grows(rec, seen)
      ensures HighTrace(seen, moSize, NoRect, NoRect, fines2, start, highs2, lows2)
      ensures highDetail == Prior(start, highs2, |highs2|) && lowDetail == Latest(startLow, lows2)
      ensures crashed <==> highs == [] && (start.None? || startLow.None?)
      ensures crashed ==>
        && fineness == old(fineness) && playing == old(playing) && frames == old(frames)
        && fines2 == fines && highs2 == highs && lows2 == lows
      ensures !crashed ==>
        && start.Some? && startLow.Some? && highDetail.Some?
        && fineness == old(fineness) + 1 && playing == Scene(moSize, fineness, NoRect, NoRect) && frames == FrameSchedule()
        && fines2 == fines + [old(fineness)] && highs2 == highs + [highDetail.value] && |lows2| == |lows| + 1
        && (below <==> highDetail.value < highDetailTarget)
    {
      seen := PsccDetail(rec);
      fines2, highs2, lows2 := fines, highs, lows;
      if highs == [] {
        assert seen[playing] == DetailAt(playing);
      }
      if highDetail.None? || lowDetail.None? {
        HighTraceGrows(rec, seen, moSize, NoRect, NoRect, fines, start, highs, lows);
        return true, false, fines2, highs2, lows2, seen;
      }
      ghost var found := seen[playing].low;
      HighTraceStep(rec, seen, moSize, NoRect, NoRect, fines, start, highs, lows, fineness, highDetail.value, found);
      LatestStep(startLow, lows, found);
      fines2, highs2, lows2 := fines + [fineness], highs + [highDetail.value], lows + [found];
      below := highDetail.value < highDetailTarget;
      fineness := fineness + 1;
      MakeScene(moSize, fineness, NoRect, NoRect);
      crashed := false;
    }

    /** The fineness loop of `low_detail_scenes`: make and measure the scene of the current
        fineness without rectangles, then measure again and raise the fineness by one, until a
        high detail score falls below its target; the fineness ends one above the first that
        did. `fines` are the finenesses measured in the loop, `highs` the high detail scores
        they left, starting from the score of the first measurement, and `lows` the low detail
        scores they found; at most `fuel` rounds are made. */
    method LowDetailFineness(fuel: nat, ghost rec: map<Scene, Reading>)
      returns (run: Run, ghost fines: seq<int>, ghost highs: seq<nat>, ghost lows: seq<Option<nat>>,
               ghost seen: map<Scene, Reading>)
      requires DetailRecorded(rec)
      modifies this`fineness, this`playing, this`frames, this`highDetail, this`lowDetail
      ensures DetailRecorded(seen) && Grows(rec, seen) && frames == FrameSchedule()
      ensures HighTrace(seen, moSize, NoRect, NoRect, fines,
                        Keep(DetailAt(Scene(moSize, old(fineness), NoRect, NoRect)).high, old(highDetail)), highs, lows)
      ensures highDetail == Prior(Keep(DetailAt(Scene(moSize, old(fineness), NoRect, NoRect)).high, old(highDetail)), highs, |highs|)
      ensures lowDetail == Latest(Keep(DetailAt(Scene(moSize, old(fineness), NoRect, NoRect)).low, old(lowDetail)), lows)
      ensures forall k :: 0 <= k < |fines| ==> fines[k] == old(fineness) + k
      ensures fineness == old(fineness) + |highs| && playing == Scene(moSize, fineness, NoRect, NoRect)
      ensures |highs| <= fuel
      ensures run == Crashed <==>
        && fuel > 0
        && (|| Keep(DetailAt(Scene(moSize, old(fineness), NoRect, NoRect)).high, old(highDetail)).None?
            || Keep(DetailAt(Scene(moSize, old(fineness), NoRect, NoRect)).low, old(lowDetail)).None?)
      ensures run == Crashed ==> highs == []
      ensures run == FuelSpent ==> |highs| == fuel && forall k :: 0 <= k < |highs| ==> highs[k] >= highDetailTarget
      ensures run == Finished ==>
        && highs != []
        && (forall k :: 0 <= k < |highs| - 1 ==> highs[k] >= highDetailTarget)
        && highs[|highs| - 1] < highDetailTarget
        && fineness == fines[|fines| - 1] + 1
    {
      ghost var bare := Scene(moSize, fineness, NoRect, NoRect);
      seen := ProbeDetail(moSize, fineness, NoRect, NoRect, rec);
      ghost var start, startLow := highDetail, lowDetail;
      assert seen[bare] == DetailAt(bare);
      fines, highs, lows := [], [], [];
      var left: nat := fuel;
      while true
        invariant fineness == old(fineness) + |highs| && |fines| == |highs| && |highs| + left == fuel
        invariant forall k :: 0 <= k < |fines| ==> fines[k] == old(fineness) + k
        invariant forall k :: 0 <= k < |highs| ==> highs[k] >= highDetailTarget
        invariant playing == Scene(moSize, fineness, NoRect, NoRect) && frames == FrameSchedule()
        invariant DetailRecorded(seen) && Grows(rec, seen)
        invariant HighTrace(seen, moSize, NoRect, NoRect, fines, start, highs, lows)
        invariant highDetail == Prior(start, highs, |highs|) && lowDetail == Latest(startLow, lows)
        invariant highs != [] ==> start.Some? && startLow.Some?
        decreases left
      {
        if left == 0 {
          return FuelSpent, fines, highs, lows, seen;
        }
        left := left - 1;
        var crashed, below;
        crashed, below, fines, highs, lows, seen := FinenessPass(start, startLow, fines, highs, lows, seen);
        if crashed {
          return Crashed, fines, highs, lows, seen;
        }
        if below {
          return Finished, fines, highs, lows, seen;
        }
      }
    }
  }
}
