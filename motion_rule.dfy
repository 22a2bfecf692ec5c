/** The motion-score stabilisation rule of `Datapath.check_motion`: the camera's
    `ms` console command is polled, one sample per reply; from the tenth sample on
    the poll stops as soon as the last ten samples have zero variance, and at the
    twentieth sample it stops anyway with the truncated mean of all twenty. */
module MotionRule {
  import opened Scores

  /** Number of trailing samples whose variance decides stability. */
  const SampleRange: nat := 10
  /** Number of samples after which the poll gives up waiting for stability. */
  const MaxSamples: nat := 20

  function Sum(xs: seq<nat>): nat {
    if xs == [] then 0 else xs[0] + Sum(xs[1..])
  }

  function Square(d: int): int {
    d * d
  }

  /** The squared deviations of the scores from their mean `s / n`, each scaled by `n * n`
      so that they stay integers: `(x - s/n)^2 * n^2 == (n*x - s)^2`. */
  function ScaledDeviations(xs: seq<nat>, n: nat, s: nat): nat {
    if xs == [] then 0 else Square(n * xs[0] - s) + ScaledDeviations(xs[1..], n, s)
  }

  /** numpy's `var`: the mean of the squared deviations from the mean, that is the sum of the
      scaled deviations divided by `n * n` and again by `n`. */
  function Variance(xs: seq<nat>): real
    requires |xs| > 0
  {
    (ScaledDeviations(xs, |xs|, Sum(xs)) as real) / ((|xs| * |xs| * |xs|) as real)
  }

  predicate Constant(xs: seq<nat>) {
    forall i :: 0 <= i < |xs| ==> xs[i] == xs[0]
  }

  function Min(xs: seq<nat>): nat
    requires |xs| > 0
  {
    if |xs| == 1 then xs[0] else var m := Min(xs[1..]); if xs[0] <= m then xs[0] else m
  }

  function Max(xs: seq<nat>): nat
    requires |xs| > 0
  {
    if |xs| == 1 then xs[0] else var m := Max(xs[1..]); if xs[0] >= m then xs[0] else m
  }

  lemma SquareSign(d: int)
    ensures Square(d) >= 0
    ensures Square(d) == 0 ==> d == 0
  {
    if d > 0 {
      assert d * d > 0;
    } else if d < 0 {
      assert (-d) * (-d) > 0;
    }
  }

  lemma {:induction false} ScaledDeviationsZero(xs: seq<nat>, n: nat, s: nat)
    ensures ScaledDeviations(xs, n, s) == 0 <==> forall i :: 0 <= i < |xs| ==> n * xs[i] == s
  {
    if xs != [] {
      ScaledDeviationsZero(xs[1..], n, s);
      SquareSign(n * xs[0] - s);
      if ScaledDeviations(xs, n, s) == 0 {
        forall i | 0 <= i < |xs| ensures n * xs[i] == s {
          if i > 0 {
            assert xs[i] == xs[1..][i - 1];
          }
        }
      } else if forall i :: 0 <= i < |xs| ==> n * xs[i] == s {
        forall i | 0 <= i < |xs| - 1 ensures n * xs[1..][i] == s {
          assert xs[1..][i] == xs[i + 1];
        }
      }
    }
  }

  lemma {:induction false} SumOfConstant(xs: seq<nat>, c: nat)
    requires forall i :: 0 <= i < |xs| ==> xs[i] == c
    ensures Sum(xs) == |xs| * c
  {
    if xs != [] {
      SumOfConstant(xs[1..], c);
    }
  }

  lemma Cancel(n: nat, x: nat, y: nat)
    requires n > 0 && n * x == n * y
    ensures x == y
  {
  }

  /** numpy reports zero variance for a window of integer scores exactly when all of them are equal. */
  lemma ZeroVarianceIffConstant(xs: seq<nat>)
    requires |xs| > 0
    ensures Variance(xs) == 0.0 <==> Constant(xs)
  {
    var n := |xs|;
    var sd := ScaledDeviations(xs, n, Sum(xs));
    ScaledDeviationsZero(xs, n, Sum(xs));
    assert n * n * n > 0;
    assert Variance(xs) == 0.0 <==> sd == 0 by {
      if sd > 0 {
        assert (sd as real) / ((n * n * n) as real) > 0.0;
      }
    }
    if Constant(xs) {
      SumOfConstant(xs, xs[0]);
      assert forall i :: 0 <= i < n ==> n * xs[i] == Sum(xs);
    } else if sd == 0 {
      forall i | 0 <= i < n ensures xs[i] == xs[0] {
        Cancel(n, xs[i], xs[0]);
      }
      assert false;
    }
  }

  lemma {:induction false} SumBounds(xs: seq<nat>, lo: nat, hi: nat)
    requires forall i :: 0 <= i < |xs| ==> lo <= xs[i] <= hi
    ensures |xs| * lo <= Sum(xs) <= |xs| * hi
  {
    if xs != [] {
      var k := |xs| - 1;
      SumBounds(xs[1..], lo, hi);
      assert |xs| * lo == k * lo + lo && |xs| * hi == k * hi + hi;
    }
  }

  lemma {:induction false} MinMaxBound(xs: seq<nat>)
    requires |xs| > 0
    ensures forall i :: 0 <= i < |xs| ==> Min(xs) <= xs[i] <= Max(xs)
  {
    if |xs| > 1 {
      MinMaxBound(xs[1..]);
      forall i | 1 <= i < |xs| ensures Min(xs) <= xs[i] <= Max(xs) {
        assert xs[i] == xs[1..][i - 1];
      }
    }
  }

  lemma ProductOrder(n: nat, x: nat, y: nat)
    requires n > 0 && n * x < n * y
    ensures x < y
  {
  }

  lemma DivisionBounds(a: nat, n: nat, lo: nat, hi: nat)
    requires n > 0 && n * lo <= a <= n * hi
    ensures lo <= a / n <= hi
  {
    var q := a / n;
    assert n * q <= a < n * (q + 1);
    ProductOrder(n, lo, q + 1);
    ProductOrder(n, q, hi + 1);
  }

  /** The truncated mean of a non-empty run of scores lies between its smallest and largest score. */
  lemma TruncatedMeanWithin(xs: seq<nat>)
    requires |xs| > 0
    ensures Min(xs) <= Sum(xs) / |xs| <= Max(xs)
  {
    MinMaxBound(xs);
    SumBounds(xs, Min(xs), Max(xs));
    DivisionBounds(Sum(xs), |xs|, Min(xs), Max(xs));
  }

  /** The decision taken right after a sample is appended (`None`: keep polling). */
  function Settled(samples: seq<nat>): Option<nat> {
    if |samples| < SampleRange then None
    else if |samples| == MaxSamples then Some(Sum(samples) / MaxSamples)
    else
      var window := samples[|samples| - SampleRange..];
      if Constant(window) then Some(window[SampleRange - 1]) else None
  }

  /** Below ten samples the poll never stops; at twenty it always stops with the truncated mean,
      even when the last ten agree; in between it stops exactly when the last ten samples are all
      equal, and then reports the latest sample. */
  lemma SettledSpec(samples: seq<nat>)
    requires |samples| <= MaxSamples
    ensures |samples| < SampleRange ==> Settled(samples).None?
    ensures |samples| == MaxSamples ==> Settled(samples) == Some(Sum(samples) / MaxSamples)
    ensures SampleRange <= |samples| < MaxSamples ==>
      (Settled(samples).Some? <==> Constant(samples[|samples| - SampleRange..]))
    ensures SampleRange <= |samples| < MaxSamples && Settled(samples).Some? ==>
      Settled(samples) == Some(samples[|samples| - 1])
  {
  }

  /** How a poll ends: stopped with the collected samples and a score, or broken off because a
      reply did not contain the motion-score pattern (the source's `re.search(...).group` on None). */
  datatype PollResult = Stopped(samples: seq<nat>, score: nat) | NoScore(samples: seq<nat>)

  /** The first `|samples|` console replies carry these scores. */
  predicate Parsed(replies: nat -> string, samples: seq<nat>) {
    forall k :: 0 <= k < |samples| ==> Extract(replies(k), MotionPattern) == Some(samples[k])
  }

  /** The poll continued from the samples already collected; `replies(k)` is the k-th `ms` reply. */
  function PollFrom(replies: nat -> string, samples: seq<nat>): (r: PollResult)
    requires |samples| < MaxSamples
    decreases MaxSamples - |samples|
  {
    match Extract(replies(|samples|), MotionPattern)
    case None => NoScore(samples)
    case Some(v) =>
      var next := samples + [v];
      match Settled(next)
      case Some(score) => Stopped(next, score)
      case None =>
        assert |next| < MaxSamples by {
          SettledSpec(next);
        }
        PollFrom(replies, next)
  }

  /** A reply without a motion score breaks the poll off with the samples collected so far. */
  lemma PollFromNoScore(replies: nat -> string, samples: seq<nat>)
    requires |samples| < MaxSamples
    requires Extract(replies(|samples|), MotionPattern).None?
    ensures PollFrom(replies, samples) == NoScore(samples)
  {
  }

  /** One round of the poll: the next reply's score is appended, and the poll stops if the rule
      settles on the longer list and continues from it otherwise. */
  lemma PollFromStep(replies: nat -> string, samples: seq<nat>, v: nat)
    requires |samples| < MaxSamples
    requires Extract(replies(|samples|), MotionPattern) == Some(v)
    ensures Settled(samples + [v]).Some? ==>
      PollFrom(replies, samples) == Stopped(samples + [v], Settled(samples + [v]).value)
    ensures Settled(samples + [v]).None? ==>
      |samples| + 1 < MaxSamples && PollFrom(replies, samples) == PollFrom(replies, samples + [v])
  {
    SettledSpec(samples + [v]);
  }

  /** The last ten samples of the first `m`. */
  function WindowBefore(s: seq<nat>, m: nat): seq<nat>
    requires SampleRange <= m <= |s|
  {
    s[m - SampleRange..m]
  }

  /** A poll continued from `samples` keeps them and appends at most up to the cap. */
  lemma {:induction false} PollFromExtends(replies: nat -> string, samples: seq<nat>)
    requires |samples| < MaxSamples
    ensures samples <= PollFrom(replies, samples).samples
    ensures |PollFrom(replies, samples).samples| <= MaxSamples
    decreases MaxSamples - |samples|
  {
    var o := Extract(replies(|samples|), MotionPattern);
    if o.Some? && Settled(samples + [o.value]).None? {
      var next := samples + [o.value];
      SettledSpec(next);
      PollFromExtends(replies, next);
    }
  }

  /** Every appended sample is the score of the next reply. */
  lemma {:induction false} PollFromParsed(replies: nat -> string, samples: seq<nat>)
    requires |samples| < MaxSamples && Parsed(replies, samples)
    ensures Parsed(replies, PollFrom(replies, samples).samples)
    decreases MaxSamples - |samples|
  {
    var o := Extract(replies(|samples|), MotionPattern);
    if o.Some? {
      var next := samples + [o.value];
      assert Parsed(replies, next);
      if Settled(next).None? {
        SettledSpec(next);
        PollFromParsed(replies, next);
      }
    }
  }

  /** A poll ends on a prefix the rule settles, with the rule's score, or on a reply without a score. */
  lemma {:induction false} PollFromEnds(replies: nat -> string, samples: seq<nat>)
    requires |samples| < MaxSamples
    ensures var r := PollFrom(replies, samples);
      && (r.Stopped? ==> Settled(r.samples) == Some(r.score))
      && (r.NoScore? ==> |r.samples| < MaxSamples && Extract(replies(|r.samples|), MotionPattern).None?)
    decreases MaxSamples - |samples|
  {
    var o := Extract(replies(|samples|), MotionPattern);
    if o.Some? && Settled(samples + [o.value]).None? {
      var next := samples + [o.value];
      SettledSpec(next);
      PollFromEnds(replies, next);
    }
  }

  /** No prefix strictly between the starting samples and the final ones settles. */
  lemma {:induction false} PollFromFirst(replies: nat -> string, samples: seq<nat>)
    requires |samples| < MaxSamples
    ensures var s := PollFrom(replies, samples).samples;
      forall m :: |samples| < m < |s| ==> Settled(s[..m]).None?
    decreases MaxSamples - |samples|
  {
    var o := Extract(replies(|samples|), MotionPattern);
    if o.Some? {
      var next := samples + [o.value];
      PollFromStep(replies, samples, o.value);
      if Settled(next).None? {
        PollFromFirst(replies, next);
        PollFromExtends(replies, next);
        var s := PollFrom(replies, next).samples;
        forall m | |samples| < m < |s| ensures Settled(s[..m]).None? {
          if m == |next| {
            assert s[..m] == next;
          }
        }
      }
    }
  }

  /** The whole poll of `check_motion`, started with an empty `motion_list`. */
  function Poll(replies: nat -> string): PollResult {
    PollFrom(replies, [])
  }

  /** The samples are the scores of the consecutive replies; a poll that breaks off does so at the
      first reply without a score. */
  lemma PollReadsReplies(replies: nat -> string)
    ensures Parsed(replies, Poll(replies).samples)
    ensures Poll(replies).NoScore? ==>
      |Poll(replies).samples| < MaxSamples && Extract(replies(|Poll(replies).samples|), MotionPattern).None?
  {
    assert Parsed(replies, []);
    PollFromParsed(replies, []);
    PollFromEnds(replies, []);
  }

  /** A poll stops after ten to twenty samples; before twenty only on a window of ten equal samples,
      reporting the latest one; and never later than the first such window. */
  lemma PollStopsAtFirstStableWindow(replies: nat -> string)
    ensures Poll(replies).Stopped? ==> SampleRange <= |Poll(replies).samples| <= MaxSamples
    ensures Poll(replies).Stopped? && |Poll(replies).samples| < MaxSamples ==>
      var s := Poll(replies).samples;
      Constant(s[|s| - SampleRange..]) && Poll(replies).score == s[|s| - 1]
    ensures Poll(replies).Stopped? ==>
      var s := Poll(replies).samples;
      forall m :: SampleRange <= m < |s| ==> !Constant(WindowBefore(s, m))
  {
    var r := Poll(replies);
    PollFromExtends(replies, []);
    PollFromEnds(replies, []);
    PollFromFirst(replies, []);
    if r.Stopped? {
      var s := r.samples;
      SettledSpec(s);
      forall m | SampleRange <= m < |s| ensures !Constant(WindowBefore(s, m)) {
        SettledSpec(s[..m]);
        assert s[..m][m - SampleRange..] == s[m - SampleRange..m];
      }
    }
  }

  /** At the cap the score is the truncated mean of all twenty samples, hence between the smallest
      and the largest of them. */
  lemma PollCapMean(replies: nat -> string)
    requires Poll(replies).Stopped? && |Poll(replies).samples| == MaxSamples
    ensures Poll(replies).score == Sum(Poll(replies).samples) / MaxSamples
    ensures Min(Poll(replies).samples) <= Poll(replies).score <= Max(Poll(replies).samples)
  {
    PollFromEnds(replies, []);
    SettledSpec(Poll(replies).samples);
    TruncatedMeanWithin(Poll(replies).samples);
  }

  function Repeat(v: nat, n: nat): (r: seq<nat>)
    ensures |r| == n && forall i :: 0 <= i < n ==> r[i] == v
  {
    seq(n, _ => v)
  }

  /** From `k` agreeing samples, ten agreeing replies complete a window that stops the poll. */
  lemma {:induction false} SteadyFrom(replies: nat -> string, v: nat, k: nat)
    requires k < SampleRange
    requires forall j :: 0 <= j < SampleRange ==> Extract(replies(j), MotionPattern) == Some(v)
    ensures PollFrom(replies, Repeat(v, k)) == Stopped(Repeat(v, SampleRange), v)
    decreases SampleRange - k
  {
    var next := Repeat(v, k) + [v];
    assert next == Repeat(v, k + 1);
    PollFromStep(replies, Repeat(v, k), v);
    SettledSpec(next);
    if k + 1 < SampleRange {
      SteadyFrom(replies, v, k + 1);
    } else {
      assert next[|next| - SampleRange..] == next;
    }
  }

  /** A device whose first ten replies agree settles after exactly ten samples on that score. */
  lemma PollSteadyDevice(replies: nat -> string, v: nat)
    requires forall j :: 0 <= j < SampleRange ==> Extract(replies(j), MotionPattern) == Some(v)
    ensures Poll(replies) == Stopped(Repeat(v, SampleRange), v)
  {
    assert Repeat(v, 0) == [];
    SteadyFrom(replies, v, 0);
  }

  lemma {:induction false} CompletesFrom(replies: nat -> string, samples: seq<nat>)
    requires |samples| < MaxSamples
    requires forall j :: 0 <= j < MaxSamples ==> Extract(replies(j), MotionPattern).Some?
    ensures PollFrom(replies, samples).Stopped?
    decreases MaxSamples - |samples|
  {
    var v := Extract(replies(|samples|), MotionPattern).value;
    var next := samples + [v];
    if Settled(next).None? {
      SettledSpec(next);
      CompletesFrom(replies, next);
    }
  }

  /** When every reply carries a score the poll always ends with a score: it cannot run forever. */
  lemma PollCompletes(replies: nat -> string)
    requires forall j :: 0 <= j < MaxSamples ==> Extract(replies(j), MotionPattern).Some?
    ensures Poll(replies).Stopped?
  {
    CompletesFrom(replies, []);
  }
}
