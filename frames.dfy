/** The frame schedule of `make_scene`: one frame per angle of `range(0, 181, 9)`, each saved
    under the label `str(int(angle / 9))`, so that ffmpeg's `%d.png` input finds the frames
    0, 1, 2, ... in order. */
module Frames {
  import opened Scores

  /** Python's `range(start, stop, step)` for a positive step. */
  function PyRange(start: int, stop: int, step: nat): seq<int>
    requires step > 0
    decreases stop - start
  {
    if start >= stop then [] else [start] + PyRange(start + step, stop, step)
  }

  /** `range(start, stop, step)` holds the `start + k * step` below `stop`, in ascending order. */
  lemma {:induction false} PyRangeElements(start: int, stop: int, step: nat, count: nat)
    requires step > 0
    requires start + (count - 1) * step < stop <= start + count * step
    ensures |PyRange(start, stop, step)| == count
    ensures forall k :: 0 <= k < count ==> PyRange(start, stop, step)[k] == start + k * step
    decreases count
  {
    if count > 0 {
      var rest := PyRange(start + step, stop, step);
      PyRangeElements(start + step, stop, step, count - 1);
      forall k | 0 < k < count ensures PyRange(start, stop, step)[k] == start + k * step {
        assert PyRange(start, stop, step)[k] == rest[k - 1];
      }
    }
  }

  /** One saved frame: the rotation of the motion object, in degrees, and its file name (without ".png"). */
  datatype Frame = Frame(angle: int, name: string)

  function FramesAt(angles: seq<int>): seq<Frame>
    requires forall k :: 0 <= k < |angles| ==> angles[k] >= 0
  {
    if angles == [] then [] else [Frame(angles[0], Render(angles[0] / AngleStep))] + FramesAt(angles[1..])
  }

  /** Number of frames of one half turn. */
  const FrameCount: nat := 21
  /** The rotation between two consecutive frames, and the rotation of the last one, in degrees. */
  const AngleStep: nat := 9
  const HalfTurn: int := 180

  function FrameSchedule(): seq<Frame> {
    PyRangeElements(0, HalfTurn + 1, AngleStep, FrameCount);
    FramesAt(PyRange(0, HalfTurn + 1, AngleStep))
  }

  lemma {:induction false} FramesAtElements(angles: seq<int>)
    requires forall k :: 0 <= k < |angles| ==> angles[k] >= 0
    ensures |FramesAt(angles)| == |angles|
    ensures forall k :: 0 <= k < |angles| ==> FramesAt(angles)[k] == Frame(angles[k], Render(angles[k] / AngleStep))
  {
    if angles != [] {
      FramesAtElements(angles[1..]);
      forall k | 0 < k < |angles|
        ensures FramesAt(angles)[k] == Frame(angles[k], Render(angles[k] / AngleStep))
      {
        assert angles[1..][k - 1] == angles[k];
      }
    }
  }

  /** Exactly 21 frames; frame `k` is drawn at `9 * k` degrees and named with the decimal
      spelling of `k`; the last frame is at 180 degrees, where the rotated rectangle coincides
      with the first. */
  lemma FrameScheduleShape()
    ensures |FrameSchedule()| == FrameCount
    ensures forall k :: 0 <= k < FrameCount ==>
      FrameSchedule()[k].angle == 9 * k && FrameSchedule()[k].name == Render(k)
    ensures FrameSchedule()[FrameCount - 1].angle == 180
  {
    PyRangeElements(0, HalfTurn + 1, AngleStep, FrameCount);
    var angles := PyRange(0, HalfTurn + 1, AngleStep);
    FramesAtElements(angles);
    forall k | 0 <= k < FrameCount ensures angles[k] / AngleStep == k {
      assert angles[k] == 9 * k;
    }
  }

  /** A run of 21 frames at `9 * k` degrees named `k` is the schedule. */
  lemma FrameScheduleFrom(shots: seq<Frame>)
    requires |shots| == FrameCount
    requires forall k :: 0 <= k < FrameCount ==> shots[k] == Frame(9 * k, Render(k))
    ensures shots == FrameSchedule()
  {
    FrameScheduleShape();
  }

  /** The frame names read back as 0, 1, ..., 20: consecutive and ascending, as the `%d.png`
      input of ffmpeg expects. */
  lemma FrameNamesConsecutive()
    ensures |FrameSchedule()| == FrameCount
    ensures forall k :: 0 <= k < FrameCount ==>
      AllDigits(FrameSchedule()[k].name) && DigitsValue(FrameSchedule()[k].name) == k
  {
    FrameScheduleShape();
    forall k | 0 <= k < FrameCount
      ensures AllDigits(FrameSchedule()[k].name) && DigitsValue(FrameSchedule()[k].name) == k
    {
      ReadRender(k);
    }
  }
}
