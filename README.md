# bandwidth.py calibration model

bandwidth.py makes calibration video scenes for a security camera's bandwidth tests. A scene
has three parts:

- a black rectangle turning about the screen centre, which gives the motion score;
- a background of repeated square tiles whose size (`fineness`) sets the high detail score;
- up to two grey rectangles, which set the low detail score.

`Datapath` draws a scene and plays it. It then reads scores in two ways:

- the camera's motion score, by polling the `ms` console command until it settles;
- the high and low detail scores, by running a detail tool on a captured frame and searching
  its output with regular expressions.

`Controller` searches the scene parameters until the scores meet their targets:

- `make_motion` bisects on the length of the motion object;
- `hd_delta` walks the fineness towards the high detail target;
- `ld_rect` bisects on the length of a low detail rectangle;
- `low_detail_scenes` raises the fineness until the high detail score drops below its target;
- `high_detail_scenes` judges the high detail score against the band `target ± tolerance`.

The project is five modules:

- `Scores` (scores.dfy): the three score patterns. It models Python's leftmost `re.search`
  and `int()` of the captured digits. It proves the search equivalent to the regular
  expression's meaning, and that reading back a rendered reply gives the score it was made
  from.
- `MotionRule` (motion_rule.dfy): the stabilisation rule of `check_motion` as a function on the
  samples. It also models the whole poll over the console replies. numpy's variance is
  computed exactly and proved zero exactly on a window of equal samples.
- `Frames` (frames.dfy): the 21-frame schedule of `make_scene` and its file names.
- `Bands` (bands.dfy): the three-way tolerance tests, in both of the orders the script uses.
- `Bandwidth` (controller.dfy): one class `Controller` holds the fields and methods of both
  `Datapath` and `Controller` (the source's subclass adds only methods).
  - The camera and the external tools are a deterministic `Device`. It gives the `k`-th `ms`
    reply and the detail tool's text for each `Scene`, where a scene is motion object length,
    fineness and two rectangles.
  - `playing` is the scene that `scene.mp4` holds.
  - Each search loop is a method with loop invariants. Its postcondition ties the final state
    to a ghost trace: the probes made, the scores they left, and the intervals or distances
    the search moved through. Each probe is checked against the device through a ghost record
    of readings.
  - The source's unbounded `while True` loops get a `fuel` bound. `Run` tells whether a loop
    finished, spent its fuel, or met the case where the source raises.

## Model

| member | source | states |
|---|---|---|
| Scores.ReadRender | bandwidth.py:170 | `int()` of the decimal spelling `str(v)` is `v` again |
| Scores.OnlyLongestRunMatches | bandwidth.py:61 | for these patterns greedy `(\d+)` cannot backtrack: the only match at a position captures the longest digit run |
| Scores.MatchAtSpec | bandwidth.py:61 | the match attempt at position `i` succeeds exactly when the regular expression matches there, and yields the captured number |
| Scores.FirstMatchSpec | bandwidth.py:61 | the search stops at the first position where the pattern matches, having found no match before it, or runs past the end |
| Scores.ExtractSpec | bandwidth.py:61-66 | `Extract`, the model of `re.search` plus `int(group(1))`, finds nothing exactly when no position matches; otherwise its value is the one captured by the leftmost match |
| Scores.MotionReplyRoundTrip | bandwidth.py:77 | reading back `30s: <n> percent`, whatever follows, gives `n` |
| Scores.DetailReportHigh | bandwidth.py:61-63 | the detail tool's report yields its high detail score |
| Scores.DetailReportLow | bandwidth.py:64-66 | the report yields its low detail score; no `LowDetail:` match starts inside the high detail line |
| Scores.DetailReportRoundTrip | bandwidth.py:61-66 | reading back a detail report gives both scores it was made from |
| MotionRule.ZeroVarianceIffConstant | bandwidth.py:87-88 | `np.var` of a window of integer scores is zero exactly when all of them are equal |
| MotionRule.TruncatedMeanWithin | bandwidth.py:84 | `int(mean(...))` of non-negative scores lies between their minimum and maximum |
| MotionRule.SettledSpec | bandwidth.py:81-90 | `Settled`, the decision after each sample: below 10 samples the poll never stops; at 20 it stops with the truncated mean even when the last ten agree; in between it stops exactly on ten equal trailing samples, reporting the latest |
| MotionRule.PollReadsReplies | bandwidth.py:74-78 | the samples are the scores of the consecutive replies; a broken-off poll stops at the first reply without a score |
| MotionRule.PollStopsAtFirstStableWindow | bandwidth.py:75-92 | `Poll` (through `PollFrom`, one loop pass per sample): a poll that stops holds 10 to 20 samples; before 20 it stops only on ten equal samples and reports the latest; no earlier window of ten was constant |
| MotionRule.PollCapMean | bandwidth.py:83-85 | at the cap the score is the truncated mean of all 20 samples, between their least and greatest |
| MotionRule.PollSteadyDevice | bandwidth.py:81-90 | a device whose first ten replies agree settles after exactly ten samples on that score |
| MotionRule.PollCompletes | bandwidth.py:75-92 | when every reply carries a score the poll stops with a score after at most 20 samples |
| Frames.PyRangeElements | bandwidth.py:169 | `range(start, stop, step)` holds `start + k * step` for the right number of `k`, ascending |
| Frames.FrameScheduleShape | bandwidth.py:169-170 | `FrameSchedule`, the frames `make_scene` draws: exactly 21; frame `k` is drawn at `9 * k` degrees and named `str(k)`; the last is at 180 degrees |
| Frames.FrameNamesConsecutive | bandwidth.py:169-173 | the frame names read back as 0, 1, ..., 20, as ffmpeg's `%d.png` input needs |
| Bands.LowFirst | bandwidth.py:280-288 | the tests below, above, within are exhaustive; within holds exactly when `abs(score - target) <= tolerance`, below exactly when `score < target - tolerance` |
| Bands.InsideFirst | bandwidth.py:339-347 | the tests within, above, below are exhaustive; within holds exactly when `abs(score - target) <= tolerance` |
| Bands.OrdersAgree | bandwidth.py:280-288 | with a non-negative tolerance both orders of the test classify every score alike |
| Bands.NegativeToleranceOrders | bandwidth.py:339-345 | with a negative tolerance nothing is within, and a score on target is "below" in one order and "above" in the other |
| Bandwidth.UpdatedSpec | bandwidth.py:61-66 | a report with no match of a pattern leaves that score field unchanged; one with a match sets it to the leftmost match's value |
| Bandwidth.UpdatedByDetailReport | bandwidth.py:56-66 | a report in the detail tool's format sets both fields, whatever they held |
| Bandwidth.LatestStep | bandwidth.py:61-66 | `Latest`, the field after a sequence of reports, goes on with one more report by keeping the old value exactly when the new report has no match |
| Bandwidth.LatestIsLastFound | bandwidth.py:61-66 | after a sequence of reports a field holds the value of the last report that matched |
| Bandwidth.LatestNoneFound | bandwidth.py:61-66 | when no report of a sequence matches, the field still holds what it held before them |
| Bandwidth.DescendsPairwise | bandwidth.py:243-256 | no distance of a descent is larger than any before it or than the starting distance |
| Bandwidth.DescendsLeast | bandwidth.py:253-256 | the last distance of a descent is the least measured: the fineness `hd_delta` keeps is the best one on its way |
| Bandwidth.NarrowingWithin | bandwidth.py:273-285 | every interval of the bisection, and each midpoint tried, lies inside the first interval |
| Bandwidth.NarrowingHalves | bandwidth.py:276-285 | until a score lands in the band, each step halves the interval |
| Bandwidth.BisectedLength | bandwidth.py:273-279 | every rectangle length the bisection tries, midpoint minus position, lies between 0 and the first interval's width |
| Bandwidth.Controller.constructor | bandwidth.py:22-28 | a new controller starts at fineness 9 with no detail score read yet |
| Bandwidth.Controller.MakeScene | bandwidth.py:104-178 | `make_scene` writes the 21-frame schedule and makes `scene.mp4` show the given parameters |
| Bandwidth.Controller.CheckDetail | bandwidth.py:56-66 | each field becomes the leftmost match's value when its pattern matches and is kept otherwise |
| Bandwidth.Controller.PsccDetail | bandwidth.py:185-190 | the fields are updated from the detail report of the scene playing |
| Bandwidth.Controller.ProbeDetail | bandwidth.py:227-228 | a scene is made with the given parameters and its detail report updates the fields |
| Bandwidth.Controller.VarianceIsZero | bandwidth.py:87-88 | the zero-variance test holds exactly on a window of equal scores |
| Bandwidth.Controller.Settle | bandwidth.py:81-92 | the decision after appending a sample is the stabilisation rule |
| Bandwidth.Controller.CheckMotion | bandwidth.py:72-92 | `motion_list` ends as the poll's samples; a score is set exactly when the poll stops with one, and is the rule's score |
| Bandwidth.Controller.PsccMotion | bandwidth.py:185-192 | the motion poll is that of the scene playing: `motion_list` is its samples, `motion_score` its score when it stops and unchanged when a reply has no score |
| Bandwidth.Controller.BracketKeepsTarget | bandwidth.py:212-218 | for a device whose motion grows with length, every length meeting the motion target lies in the current bracket |
| Bandwidth.Controller.ProbeMotion | bandwidth.py:206-209 | `mo_size` is set, the 21 frames are written and the motion scene with that length plays; `motion_list` and `motion_score` are its poll's, the score kept when the poll breaks off |
| Bandwidth.Controller.MotionRound | bandwidth.py:206-218 | one pass of `make_motion`: the midpoint is probed; an exact hit or a broken-off poll keeps the bracket; a score above the target makes the midpoint `x2`, one below makes it `x1`, halving the bracket |
| Bandwidth.Controller.MakeMotion | bandwidth.py:201-218 | `0 <= x1 < x2 <= hor_res`; the width is the screen halved once per narrowing; the loop finishes only on a probe that scores exactly the target, `mo_size` being the bracket's midpoint; the ends stay a screen edge or a probe on the matching side of the target; the motion scene of `mo_size` is playing with the 21 frames written, `motion_list` its samples; when the poll breaks off the score is still the previous probe's |
| Bandwidth.Controller.HdRise | bandwidth.py:222-241 | the fineness rises by one per probe while the distance equals the initial one; direction is set, down on a larger distance and up on a smaller, only when it differs; both detail fields are the last ones the probes read, and the last probe's scene is playing |
| Bandwidth.Controller.HdRiseStep | bandwidth.py:223-228 | one pass of the first loop: the fineness rises by one, the scene is made and measured, and both detail fields take that report |
| Bandwidth.Controller.HdDescendStep | bandwidth.py:244-256 | one step in `direction` to a fineness cairo can draw; a distance that grew past the previous one steps the fineness back and closes the descent, otherwise the descent goes on; the low detail field follows the report |
| Bandwidth.Controller.HdDescend | bandwidth.py:243-256 | distances measured along the direction never grow until the first growth; an equal distance continues; on exit the fineness is the last one probed before that growth, while the scene of the growing probe stays playing; both detail fields are the last ones read; every fineness measured is drawable, and a step to one that is not (0 or less, or above 32767) raises in `make_scene` (bandwidth.py:142-144, 247) |
| Bandwidth.Controller.HdDelta | bandwidth.py:221-256 | both loops of `hd_delta` in sequence; without a high detail score it raises; on exit the fineness is one step back from the probe whose distance first grew; a descent that steps to a fineness cairo cannot draw raises there; the low detail field is the last one the probes of both loops read |
| Bandwidth.Controller.TuneRect | bandwidth.py:261-267 | only the selected entry of `rects` is rewritten from its position and length; `rect1`, `rect2` follow and the scene with both is measured |
| Bandwidth.Controller.BisectionProbe | bandwidth.py:277-285 | the rectangle is made to end at the interval's midpoint and the scene with both rectangles plays; a score below the band moves `x1` there, one above moves `x2`; without a low score the comparison raises; the high field takes the report's value when it has one |
| Bandwidth.Controller.BisectionRound | bandwidth.py:276-288 | one round extends the bisection's intervals and scores; the search stops exactly on a score within the band |
| Bandwidth.Controller.Bisection | bandwidth.py:271-288 | the search starts on `[pos, x_limit]` for rectangle 1 and `[pos, hor_res]` for rectangle 2; it finishes only with the low score within tolerance, all earlier ones outside, the rectangle ending at the last midpoint; the other rectangle is untouched; the high field is the last one the probes read |
| Bandwidth.Controller.OpenRects | bandwidth.py:290-305 | `x_limit`, positions, lengths and rectangles are set up and the opening scene is measured |
| Bandwidth.Controller.LdRect | bandwidth.py:259-318 | the opening score picks rectangle 2 when below the band, rectangle 1 when above, none when within, which leaves the opening scene playing; on finishing, the low score is within tolerance, the scene with both rectangles plays and, when `x_limit` is not negative, both lengths lie in `[0, x_limit]`; the high field is the last one read |
| Bandwidth.Controller.JudgeHighDetail | bandwidth.py:336-350 | `hs_pass` holds exactly when the high score is within tolerance; a score below the band lowers the fineness by one and measures again, raising in `make_scene` (bandwidth.py:142-144) when the lowered fineness is 0 or less; otherwise the fineness is kept; the low field follows each report |
| Bandwidth.Controller.FinenessPass | bandwidth.py:400-408 | one pass: the scene is measured, a missing high or low score raises at the print, otherwise the score is recorded and the fineness raised by one with its scene made; `below` holds exactly when the high score is under its target |
| Bandwidth.Controller.LowDetailFineness | bandwidth.py:397-408 | the fineness only rises; every score but the last is at or above the target, the last below; the fineness ends one above the first fineness whose score fell below, with the 21 frames of that fineness's scene written; the low field is the last one read; the loop raises exactly when, after the first measurement, either detail score has never been read, as the print of line 401 does |

## Notes on the code

The comments of bandwidth.py and its code do not always say the same thing. The model follows the code:

- bandwidth.py:83-84: the comment says the collection ends after 20 samples, and the code then stores `int(mean(self.motion_list))`. That is the mean truncated toward zero, not the mean itself; the model uses the truncation (MotionRule.PollCapMean).
- bandwidth.py:231: the comment says the difference "either gets bigger or smaller". Lines 239-241 also handle an equal difference, by raising the fineness again. The model does the same (Bandwidth.Controller.HdRise).
- bandwidth.py:253: the comment says the distance "should keep decreasing". The tests at lines 251 and 253 have no branch for an equal distance, so the loop goes on as after a smaller one and stops only when the distance grows (Bandwidth.Controller.HdDescend).
- bandwidth.py:212-218: `make_motion` stops only when the score equals the target exactly; a device that never gives that score keeps it bisecting forever. The model ends such a run with `FuelSpent` (Bandwidth.Controller.MakeMotion).

## Left out

- Drawing with cairo (`drawPattern`, `draw_rect`, surfaces, rotation) is not modelled. It is rendering through a foreign library; a frame is its angle and file name.
- Bandwidth.Controller.MakeScene: cairo raises for a background fineness of 0 or less, or above 32767 (bandwidth.py:142-144). The model checks this (`Drawable`) only where a loop or a step moves the fineness down or along a direction: the descent of HdDelta and the step down of JudgeHighDetail. MakeScene itself, the rising loops HdRise and LowDetailFineness (over 32000 probes from fineness 9), and the methods that redraw the fineness they were given (TuneRect, OpenRects, LdRect, the first probes of JudgeHighDetail and LowDetailFineness) go on measuring such a scene.
- Bandwidth.Controller.constructor: it gives `mo_size`, `rect1`, `rect2`, `direction` and `motion_score` starting values, which `__init__` never sets. In the source, reading one before the scenario sets it raises `AttributeError`; no call order in the source does that.
- ffmpeg, ffplay and the detail tool are left out as external processes, and so are `capture_frames`, `play_scene` and the camera console session. They are replaced by the deterministic `Device`.
- The `Device` abstraction assumes the replies depend only on the scene playing. Timing, `time.sleep` and anything concurrent in the camera are not modelled.
- The text `print` writes, `sys.exit`, the `FileNotFoundError` handler of `check_detail`, `pscc` with an unknown parameter, `arg` (argparse) and `main` are left out as side effects or unused plumbing.
- Bandwidth.Controller.MakeScene: only the default name `scene` is modelled. A named scene writes another file that is never played back, and the three-minute looped video is an ffmpeg detail.
- Bandwidth.Controller.LdRect: `int(math.sqrt((mo_size/2)**2 + (mo_size_y/2)**2))` is the parameter `reach`. The square root is floating-point numerics.
- Python floats become exact reals, so midpoints and `x_limit` carry no rounding.
- Bandwidth.Controller.MakeMotion: the source loops without bound; the model makes at most `fuel` probes and reports `FuelSpent`. The same bound applies to HdRise, HdDescend, HdDelta, Bisection, LdRect and LowDetailFineness, and nothing is claimed about a run that is longer.
- Bandwidth.Controller.BracketKeepsTarget: it needs a device whose motion score grows with the object's length, which the source assumes but cannot ensure.
- The targets and the tolerance are fixed fields of the controller. The source assigns the targets at the start of each `*_detail_scenes` method.
- The rest of the scenario methods is not modelled, only their parts named above. That covers the setup and the final named `make_scene` of `high_detail_scenes` and `low_detail_scenes`, the rectangle loop of `high_detail_scenes` (lines 353-380), and `medium_detail_scenes`. Each is a sequence of the modelled operations.
- Scores.IsDigit: `\d` and `int()` also accept non-ASCII Unicode decimal digits in Python. The model accepts only `0`-`9`.
