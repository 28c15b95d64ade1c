/**
 * `signals.vbt.resample_apply("4h", "any", wrap_kwargs=dict(dtype=bool))`:
 * a 15-minute boolean entry/exit series becomes a 4-hour series whose bucket
 * is true iff some base signal inside it is true. Buckets are aligned to the
 * epoch (4 hours divide a day, so this is also midnight alignment), are
 * labelled by their left edge, and run without holes from the bucket of the
 * first observation to that of the last; a bucket without observations is
 * false.
 */
module Resample {
  import opened Series

  const BucketSeconds: int := 14400

  function BucketOf(t: int): int {
    t / BucketSeconds
  }

  lemma BucketOfMonotone(a: int, b: int)
    requires a <= b
    ensures BucketOf(a) <= BucketOf(b)
  {
  }

  /** False buckets labelled `lo`, `lo + 1`, ..., `hi - 1`. */
  function EmptyBuckets(lo: int, hi: int): (r: seq<Obs<bool>>)
    ensures |r| == if lo < hi then hi - lo else 0
    ensures forall k :: 0 <= k < |r| ==> r[k] == Obs((lo + k) * BucketSeconds, false)
  {
    if lo < hi then seq(hi - lo, k requires 0 <= k < hi - lo => Obs((lo + k) * BucketSeconds, false)) else []
  }

  /**
   * One pass over the base series, last to first: an observation either
   * joins the bucket that opens the already resampled tail (OR of the two
   * values) or opens a new bucket, with false buckets for the hours between.
   */
  function ResampleAny(s: seq<Obs<bool>>): (r: seq<Obs<bool>>)
    ensures s == [] <==> r == []
    ensures s != [] ==> r[0].time == BucketOf(s[0].time) * BucketSeconds
  {
    if s == [] then []
    else
      var b := BucketOf(s[0].time);
      var tail := ResampleAny(s[1..]);
      if tail != [] && tail[0].time == b * BucketSeconds then
        [Obs(b * BucketSeconds, s[0].value || tail[0].value)] + tail[1..]
      else if tail == [] then
        [Obs(b * BucketSeconds, s[0].value)]
      else
        [Obs(b * BucketSeconds, s[0].value)] + EmptyBuckets(b + 1, BucketOf(s[1].time)) + tail
  }

  /** True iff some observation of bucket `b` is true: the reference meaning of a bucket. */
  predicate AnyTrueIn(s: seq<Obs<bool>>, b: int) {
    exists j :: 0 <= j < |s| && BucketOf(s[j].time) == b && s[j].value
  }

  /**
   * The bucket shape the resampler promises for a non-empty, strictly
   * increasing base series `s`: one bucket per 4 hours from the first
   * observation's bucket to the last's, labelled by its left edge, true iff
   * some base signal in it is true.
   */
  ghost predicate ResampledFrom(s: seq<Obs<bool>>, r: seq<Obs<bool>>)
    requires s != []
  {
    && |r| == BucketOf(s[|s| - 1].time) - BucketOf(s[0].time) + 1
    && (forall k :: 0 <= k < |r| ==> r[k].time == (BucketOf(s[0].time) + k) * BucketSeconds)
    && (forall k :: 0 <= k < |r| ==> (r[k].value <==> AnyTrueIn(s, BucketOf(s[0].time) + k)))
  }

  /**
   * OR-correctness: on a strictly increasing base index the output has one
   * bucket per 4 hours from the first observation's bucket to the last's,
   * labelled by its left edge, and a bucket is true iff some base signal in
   * it is true.
   */
  lemma {:induction false} ResampleAnyCorrect(s: seq<Obs<bool>>)
    requires Increasing(s) && s != []
    ensures |ResampleAny(s)| == BucketOf(s[|s| - 1].time) - BucketOf(s[0].time) + 1
    ensures forall k :: 0 <= k < |ResampleAny(s)| ==>
      ResampleAny(s)[k].time == (BucketOf(s[0].time) + k) * BucketSeconds
    ensures forall k :: 0 <= k < |ResampleAny(s)| ==>
      (ResampleAny(s)[k].value <==> AnyTrueIn(s, BucketOf(s[0].time) + k))
    decreases |s|, 1
  {
    if |s| == 1 {
      assert ResampleAny(s) == [Obs(BucketOf(s[0].time) * BucketSeconds, s[0].value)];
    } else if BucketOf(s[1].time) == BucketOf(s[0].time) {
      SameBucketStep(s);
    } else {
      NewBucketStep(s);
    }
    assert ResampledFrom(s, ResampleAny(s));
  }

  /** Facts about the tail that both induction steps share. */
  lemma TailFacts(s: seq<Obs<bool>>)
    requires Increasing(s) && |s| > 1
    ensures Increasing(s[1..])
    ensures BucketOf(s[0].time) <= BucketOf(s[1].time)
    ensures forall j :: 0 < j < |s| ==> BucketOf(s[1].time) <= BucketOf(s[j].time)
    ensures s[1..][0] == s[1] && s[1..][|s| - 2] == s[|s| - 1]
  {
    IncreasingTail(s);
    BucketOfMonotone(s[0].time, s[1].time);
    forall j | 0 < j < |s|
      ensures BucketOf(s[1].time) <= BucketOf(s[j].time)
    {
      BucketOfMonotone(s[1].time, s[j].time);
    }
  }

  /** Induction step when the first observation shares its bucket with the second. */
  lemma {:induction false} SameBucketStep(s: seq<Obs<bool>>)
    requires Increasing(s) && |s| > 1 && BucketOf(s[1].time) == BucketOf(s[0].time)
    ensures ResampledFrom(s, ResampleAny(s))
    decreases |s|, 0
  {
    var rest := s[1..];
    TailFacts(s);
    ResampleAnyCorrect(rest);
    var r, tail := ResampleAny(s), ResampleAny(rest);
    var b0 := BucketOf(s[0].time);
    assert tail[0].time == b0 * BucketSeconds;
    assert r == [Obs(b0 * BucketSeconds, s[0].value || tail[0].value)] + tail[1..];
    forall k | 0 <= k < |r|
      ensures r[k].time == (b0 + k) * BucketSeconds
      ensures r[k].value <==> AnyTrueIn(s, b0 + k)
    {
      if k == 0 {
        FirstBucket(s);
      } else {
        assert r[k] == tail[k];
        TailBucket(s, b0 + k);
      }
    }
  }

  /** Induction step when the second observation opens a later bucket. */
  lemma {:induction false} NewBucketStep(s: seq<Obs<bool>>)
    requires Increasing(s) && |s| > 1 && BucketOf(s[1].time) != BucketOf(s[0].time)
    ensures ResampledFrom(s, ResampleAny(s))
    decreases |s|, 0
  {
    var rest := s[1..];
    TailFacts(s);
    ResampleAnyCorrect(rest);
    var r, tail := ResampleAny(s), ResampleAny(rest);
    var b0, b1 := BucketOf(s[0].time), BucketOf(s[1].time);
    assert tail[0].time == b1 * BucketSeconds != b0 * BucketSeconds;
    var gap := EmptyBuckets(b0 + 1, b1);
    assert r == [Obs(b0 * BucketSeconds, s[0].value)] + gap + tail;
    forall k | 0 <= k < |r|
      ensures r[k].time == (b0 + k) * BucketSeconds
      ensures r[k].value <==> AnyTrueIn(s, b0 + k)
    {
      if k == 0 {
        if AnyTrueIn(s, b0) {
          var j :| 0 <= j < |s| && BucketOf(s[j].time) == b0 && s[j].value;
          assert j == 0;
        }
      } else if k < b1 - b0 {
        assert r[k] == gap[k - 1];
        // No observation lies strictly between the first two buckets.
        assert forall j :: 0 <= j < |s| ==> BucketOf(s[j].time) != b0 + k;
      } else {
        assert r[k] == tail[k - (b1 - b0)];
        TailBucket(s, b0 + k);
      }
    }
  }

  /** The first bucket ORs the first observation with the later ones of the same bucket. */
  lemma FirstBucket(s: seq<Obs<bool>>)
    requires s != []
    ensures AnyTrueIn(s, BucketOf(s[0].time)) <==> s[0].value || AnyTrueIn(s[1..], BucketOf(s[0].time))
  {
    var b := BucketOf(s[0].time);
    if AnyTrueIn(s, b) && !s[0].value {
      var j :| 0 <= j < |s| && BucketOf(s[j].time) == b && s[j].value;
      assert s[1..][j - 1] == s[j];
    }
    if AnyTrueIn(s[1..], b) {
      var j :| 0 <= j < |s[1..]| && BucketOf(s[1..][j].time) == b && s[1..][j].value;
      assert s[j + 1] == s[1..][j];
    }
  }

  /** A bucket after the first observation's is decided by the later observations alone. */
  lemma TailBucket(s: seq<Obs<bool>>, b: int)
    requires s != [] && b != BucketOf(s[0].time)
    ensures AnyTrueIn(s, b) <==> AnyTrueIn(s[1..], b)
  {
    if AnyTrueIn(s, b) {
      var j :| 0 <= j < |s| && BucketOf(s[j].time) == b && s[j].value;
      assert s[1..][j - 1] == s[j];
    }
    if AnyTrueIn(s[1..], b) {
      var j :| 0 <= j < |s[1..]| && BucketOf(s[1..][j].time) == b && s[1..][j].value;
      assert s[j + 1] == s[1..][j];
    }
  }

  /** A base series with a single true signal yields exactly one true bucket: the one holding it. */
  lemma SingleSignalOneBucket(s: seq<Obs<bool>>, j0: int)
    requires Increasing(s) && 0 <= j0 < |s|
    requires forall j :: 0 <= j < |s| ==> (s[j].value <==> j == j0)
    ensures var k0 := BucketOf(s[j0].time) - BucketOf(s[0].time);
      0 <= k0 < |ResampleAny(s)| &&
      forall k :: 0 <= k < |ResampleAny(s)| ==> (ResampleAny(s)[k].value <==> k == k0)
  {
    ResampleAnyCorrect(s);
    BucketOfMonotone(s[0].time, s[j0].time);
    BucketOfMonotone(s[j0].time, s[|s| - 1].time);
  }

  /** The DataFrame form: every symbol column is resampled on its own. */
  function ResampleColumns(f: map<string, seq<Obs<bool>>>): (r: map<string, seq<Obs<bool>>>)
    ensures r.Keys == f.Keys
    ensures forall c :: c in f && Increasing(f[c]) && f[c] != [] ==> c in r && ResampledFrom(f[c], r[c])
  {
    var r := map c | c in f :: ResampleAny(f[c]);
    forall c | c in f && Increasing(f[c]) && f[c] != []
      ensures ResampledFrom(f[c], r[c])
    {
      ResampleAnyCorrect(f[c]);
    }
    r
  }
}
