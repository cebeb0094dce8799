/** What `build_scaled_durations` guarantees when it returns: every mark of
    the group has a file count, no count is zero, every hold gets exactly
    one file, and the counts add up to the group's file count. The step
    that takes files off a mark when the group is over-allocated is never
    reached on a successful run: the cap on each bucket's ratio already
    keeps the total within the group. */
module ScalingProofs {
  import opened Base
  import opened Numbers
  import opened Assembly
  import opened Tempo
  import opened Scaling

  // ---------------------------------------------------------------------
  // Holds and play durations of a list of marks

  lemma {:induction false} HoldCountBound(marks: seq<Mark>, idx: seq<nat>)
    requires Indexes(marks, idx)
    ensures HoldCount(marks, idx) <= |idx|
    ensures HoldCount(marks, idx) == |idx| <==> forall l :: 0 <= l < |idx| ==> marks[idx[l]].hold
    decreases |idx|
  {
    if idx != [] {
      var init := idx[..|idx| - 1];
      assert forall l :: 0 <= l < |init| ==> init[l] == idx[l];
      HoldCountBound(marks, init);
    }
  }

  lemma {:induction false} HoldCountStep(marks: seq<Mark>, idx: seq<nat>, i: nat)
    requires Indexes(marks, idx) && i < |idx|
    ensures HoldCount(marks, idx[..i + 1]) == HoldCount(marks, idx[..i]) + if marks[idx[i]].hold then 1 else 0
  {
    assert idx[..i + 1][..i] == idx[..i];
  }

  /** Marks that all hold play for no time. */
  lemma {:induction false} HoldsPlayNothing(marks: seq<Mark>, idx: seq<nat>)
    requires Indexes(marks, idx) && forall l :: 0 <= l < |idx| ==> marks[idx[l]].hold
    ensures PlaySum(marks, idx) == 0.0
    decreases |idx|
  {
    if idx != [] {
      var init := idx[..|idx| - 1];
      assert forall l :: 0 <= l < |init| ==> init[l] == idx[l];
      HoldsPlayNothing(marks, init);
    }
  }

  lemma {:induction false} HoldsTotalPrefix(buckets: seq<Bucket>, h: nat)
    requires h <= |buckets|
    ensures HoldsTotal(buckets[..h]) <= HoldsTotal(buckets)
    decreases |buckets|
  {
    if h < |buckets| {
      var init := buckets[..|buckets| - 1];
      assert init[..h] == buckets[..h];
      HoldsTotalPrefix(init, h);
    } else {
      assert buckets[..h] == buckets;
    }
  }

  // ---------------------------------------------------------------------
  // No count is zero and holds get one file

  /** Every count set so far is non-zero, and one for a hold. */
  predicate Sane(marks: seq<Mark>, nfs: seq<Option<int>>) {
    && |nfs| == |marks|
    && forall k :: 0 <= k < |nfs| && nfs[k].Some? ==> nfs[k].value != 0 && (marks[k].hold ==> nfs[k].value == 1)
  }

  /** The state of the loop over a bucket's marks after slot `i`, when it
      started with `start` files used: the used files are the holds so far
      plus `nfilestotal`, which never passes `tempo_file_count` and, once a
      mark that plays was met, never passes the bucket's ratio. */
  predicate PassInv(marks: seq<Mark>, idx: seq<nat>, fr: int, start: int, i: nat, p: Pass)
    requires Indexes(marks, idx) && i <= |idx|
  {
    var holds := HoldCount(marks, idx[..i]);
    && p.nft <= p.tfc
    && (holds < i ==> p.nft <= fr)
    && (holds >= i ==> p.nft == 0)
    && p.used == start + holds + p.nft
    && Sane(marks, p.nfs)
  }

  /** After a bucket: a bucket with a mark that plays used exactly its
      ratio plus its holds; a bucket of holds used its holds and had no
      positive ratio. */
  predicate PassDone(marks: seq<Mark>, idx: seq<nat>, fr: int, start: int, p: Pass)
    requires Indexes(marks, idx)
  {
    var holds := HoldCount(marks, idx);
    && p.used == start + holds + (if holds < |idx| then fr else 0)
    && (holds >= |idx| ==> fr <= 0)
    && Sane(marks, p.nfs)
  }

  /** The top-up only adds to a mark that plays with at least two files, and
      needs one to exist. */
  lemma {:induction false} TopUpKeeps(v: Variant, marks: seq<Mark>, idx: seq<nat>, fr: int, q: Pass)
    requires Indexes(marks, idx) && Sane(marks, q.nfs)
    requires TopUp(v, marks, idx, fr, q).Ok?
    ensures var r := TopUp(v, marks, idx, fr, q).value;
            && Sane(marks, r.nfs)
            && r.used - r.nft == q.used - q.nft
            && r.nft == (if q.nft < fr then fr else q.nft)
            && (q.nft < fr ==> HoldCount(marks, idx) < |idx|)
  {
    HoldCountBound(marks, idx);
    if q.nft < fr {
      var j := SkipFrom(marks, idx, q.nfs, 0).value;
      var r := TopUp(v, marks, idx, fr, q).value;
      forall k | 0 <= k < |r.nfs| && r.nfs[k].Some?
        ensures r.nfs[k].value != 0 && (marks[k].hold ==> r.nfs[k].value == 1)
      {
        if k != idx[j] {
          assert r.nfs[k] == q.nfs[k];
        }
      }
    }
  }

  /** In the standalone copy, a bucket opened by a `mark` label cannot be
      corrected: once a top-up or a trim is due and a mark to absorb it is
      found, formatting the warning fails with `KeyError`. So such a bucket
      ends well only when neither correction was due, and then the last
      slot leaves the state as staged. */
  lemma {:induction false} MarkOpenedFails(count: int, marks: seq<Mark>, idx: seq<nat>, fr: int, k: nat, nf: int, q: Pass)
    requires |q.nfs| == |marks| && Indexes(marks, idx) && k < |marks| && WarningFails(Standalone, idx)
    ensures q.nft < fr && SkipFrom(marks, idx, q.nfs, 0).Ok? ==>
              LastFix(Standalone, count, marks, idx, fr, k, nf, q) == Err(KeyError)
    ensures q.nft >= fr && q.used > count && SkipFrom(marks, idx, q.nfs, 0).Ok? ==>
              LastFix(Standalone, count, marks, idx, fr, k, nf, q) == Err(KeyError)
    ensures LastFix(Standalone, count, marks, idx, fr, k, nf, q).Ok? ==>
              && q.nft >= fr && q.used <= count
              && LastFix(Standalone, count, marks, idx, fr, k, nf, q).value == q
  {
  }

  /** The step that takes files off a mark changes nothing when the files
      are not over-used, and fails when the bucket only holds. */
  lemma {:induction false} TrimIdle(v: Variant, count: int, marks: seq<Mark>, idx: seq<nat>, k: nat, nf: int, p: Pass)
    requires |p.nfs| == |marks| && Indexes(marks, idx) && k < |marks|
    requires p.used <= count || HoldCount(marks, idx) >= |idx|
    requires Trim(v, count, marks, idx, k, nf, p).Ok?
    ensures Trim(v, count, marks, idx, k, nf, p).value == (p, nf)
  {
    HoldCountBound(marks, idx);
  }

  /** A slot before the bucket's last keeps `PassInv`. */
  lemma {:induction false} MarkPassKeeps(v: Variant, count: int, marks: seq<Mark>, idx: seq<nat>, fr: int, play: real, i: nat, p: Pass, start: int)
    requires Indexes(marks, idx) && |p.nfs| == |marks| && i + 1 < |idx|
    requires PassInv(marks, idx, fr, start, i, p)
    requires MarkPass(v, count, marks, idx, fr, play, i, p).Ok?
    ensures PassInv(marks, idx, fr, start, i + 1, MarkPass(v, count, marks, idx, fr, play, i, p).value)
  {
    HoldCountStep(marks, idx, i);
    HoldCountBound(marks, idx[..i]);
  }

  /** The bucket's last slot ends the bucket as `PassDone` says, provided a
      bucket that plays fits within the group; the trim is then idle, so
      the slot's outcome is the top-up of its staged state (followed, in the
      packaged copy, by storing the mark's count). */
  lemma {:induction false} MarkPassLast(v: Variant, count: int, marks: seq<Mark>, idx: seq<nat>, fr: int, play: real, i: nat, p: Pass, start: int)
    requires Indexes(marks, idx) && |p.nfs| == |marks| && i + 1 == |idx|
    requires PassInv(marks, idx, fr, start, i, p)
    requires HoldCount(marks, idx) < |idx| ==> start + HoldCount(marks, idx) + fr <= count
    requires MarkPass(v, count, marks, idx, fr, play, i, p).Ok?
    ensures PassDone(marks, idx, fr, start, MarkPass(v, count, marks, idx, fr, play, i, p).value)
    ensures var (q, nf) := Staged(v, marks, idx, fr, play, i, p).value;
            && TopUp(v, marks, idx, fr, q).Ok?
            && var topped := TopUp(v, marks, idx, fr, q).value;
               MarkPass(v, count, marks, idx, fr, play, i, p).value
                 == if v == Packaged then topped.(nfs := topped.nfs[idx[i] := Some(nf)]) else topped
  {
    var k := idx[i];
    var (q, nf) := Staged(v, marks, idx, fr, play, i, p).value;
    HoldCountStep(marks, idx, i);
    assert idx[..i + 1] == idx;
    HoldCountBound(marks, idx[..i]);
    HoldCountBound(marks, idx);
    assert Sane(marks, q.nfs);
    TopUpKeeps(v, marks, idx, fr, q);
    var topped := TopUp(v, marks, idx, fr, q).value;
    TrimIdle(v, count, marks, idx, k, nf, topped);
  }

  lemma {:induction false} PassFromDone(v: Variant, count: int, marks: seq<Mark>, idx: seq<nat>, fr: int, play: real,
                                        i: nat, p: Pass, start: int)
    requires Indexes(marks, idx) && |p.nfs| == |marks| && i < |idx|
    requires PassInv(marks, idx, fr, start, i, p)
    requires HoldCount(marks, idx) < |idx| ==> start + HoldCount(marks, idx) + fr <= count
    requires PassFrom(v, count, marks, idx, fr, play, i, p).Ok?
    ensures PassDone(marks, idx, fr, start, PassFrom(v, count, marks, idx, fr, play, i, p).value)
    decreases |idx| - i
  {
    var q := MarkPass(v, count, marks, idx, fr, play, i, p).value;
    if i + 1 == |idx| {
      MarkPassLast(v, count, marks, idx, fr, play, i, p, start);
      assert PassFrom(v, count, marks, idx, fr, play, i + 1, q) == Ok(q);
    } else {
      MarkPassKeeps(v, count, marks, idx, fr, play, i, p, start);
      PassFromDone(v, count, marks, idx, fr, play, i + 1, q, start);
    }
  }

  /** What the buckets carry for each list of marks: the list is not empty
      and its number of holds and play duration are those of its marks. */
  predicate Summed(marks: seq<Mark>, buckets: seq<Bucket>) {
    forall h :: 0 <= h < |buckets| ==>
      && buckets[h].marks != []
      && Indexes(marks, buckets[h].marks)
      && buckets[h].holds == HoldCount(marks, buckets[h].marks)
      && buckets[h].play == PlaySum(marks, buckets[h].marks)
  }

  /** The state of the loop over the buckets before bucket `h`: the files
      used beyond the holds never pass `files_ratio_total`. */
  predicate WalkInv(marks: seq<Mark>, buckets: seq<Bucket>, h: nat, w: Walk)
    requires h <= |buckets|
  {
    w.used - HoldsTotal(buckets[..h]) <= w.frt && Sane(marks, w.nfs)
  }

  /** A bucket that plays for no time gets no files. */
  lemma {:induction false} NothingToShare(v: Variant, h: nat, cwh: int, b: Bucket, scaled: real)
    requires scaled != 0.0 && b.play == 0.0
    ensures FilesRatio(v, h, cwh, Portion(cwh, b, scaled)) == 0
  {
    assert b.play * b.tempo == 0.0;
    assert Portion(cwh, b, scaled) == 0.0;
  }

  lemma {:induction false} HoldsTotalStep(buckets: seq<Bucket>, h: nat)
    requires h < |buckets|
    ensures HoldsTotal(buckets[..h + 1]) == HoldsTotal(buckets[..h]) + buckets[h].holds
  {
    assert buckets[..h + 1][..h] == buckets[..h];
  }

  /** The first pass of bucket `h` starts as `PassInv` says, and a bucket
      that plays fits within the group: the cap on its ratio keeps the
      files used so far, its holds and its ratio within `count`. A bucket
      that only holds plays for no time and gets no files. */
  lemma {:induction false} BucketFits(v: Variant, count: int, marks: seq<Mark>, buckets: seq<Bucket>, h: nat,
                                      cwh: int, scaled: real, w: Walk)
    requires AllIndexes(marks, buckets) && Summed(marks, buckets) && |w.nfs| == |marks| && h < |buckets|
    requires cwh == count - HoldsTotal(buckets) && scaled != 0.0
    requires WalkInv(marks, buckets, h, w)
    ensures var b := buckets[h];
            var raw := FilesRatio(v, h, cwh, Portion(cwh, b, scaled));
            var fr := Capped(raw, w.frt, cwh);
            && PassInv(marks, b.marks, fr, w.used, 0, Pass(w.nfs, w.used, 0, 0))
            && (HoldCount(marks, b.marks) < |b.marks| ==> w.used + HoldCount(marks, b.marks) + fr <= count)
            && (HoldCount(marks, b.marks) >= |b.marks| ==> raw == 0)
            && w.used + HoldCount(marks, b.marks) - HoldsTotal(buckets[..h + 1]) <= w.frt
  {
    var b := buckets[h];
    var idx := b.marks;
    var raw := FilesRatio(v, h, cwh, Portion(cwh, b, scaled));
    var fr := Capped(raw, w.frt, cwh);
    var holds := HoldCount(marks, idx);
    assert holds == b.holds && b.play == PlaySum(marks, idx) && Indexes(marks, idx);
    assert idx[..0] == [];
    HoldsTotalStep(buckets, h);
    HoldsTotalPrefix(buckets, h + 1);
    HoldCountBound(marks, idx);
    if holds >= |idx| {
      HoldsPlayNothing(marks, idx);
      NothingToShare(v, h, cwh, b, scaled);
    }
  }

  lemma {:induction false} BucketStepKeeps(v: Variant, count: int, marks: seq<Mark>, buckets: seq<Bucket>, h: nat,
                                           cwh: int, scaled: real, play: real, w: Walk)
    requires AllIndexes(marks, buckets) && Summed(marks, buckets) && |w.nfs| == |marks| && h < |buckets|
    requires cwh == count - HoldsTotal(buckets)
    requires WalkInv(marks, buckets, h, w)
    requires BucketStep(v, count, marks, buckets, h, cwh, scaled, play, w).Ok?
    ensures WalkInv(marks, buckets, h + 1, BucketStep(v, count, marks, buckets, h, cwh, scaled, play, w).value)
  {
    var b := buckets[h];
    var fr := Capped(FilesRatio(v, h, cwh, Portion(cwh, b, scaled)), w.frt, cwh);
    BucketFits(v, count, marks, buckets, h, cwh, scaled, w);
    PassFromDone(v, count, marks, b.marks, fr, b.play, 0, Pass(w.nfs, w.used, 0, 0), w.used);
  }

  lemma {:induction false} WalkFromKeeps(v: Variant, count: int, marks: seq<Mark>, buckets: seq<Bucket>, h: nat,
                                         cwh: int, scaled: real, play: real, w: Walk)
    requires AllIndexes(marks, buckets) && Summed(marks, buckets) && |w.nfs| == |marks| && h <= |buckets|
    requires cwh == count - HoldsTotal(buckets)
    requires WalkInv(marks, buckets, h, w)
    requires WalkFrom(v, count, marks, buckets, h, cwh, scaled, play, w).Ok?
    ensures Sane(marks, WalkFrom(v, count, marks, buckets, h, cwh, scaled, play, w).value.nfs)
    decreases |buckets| - h
  {
    if h < |buckets| {
      BucketStepKeeps(v, count, marks, buckets, h, cwh, scaled, play, w);
      var next := BucketStep(v, count, marks, buckets, h, cwh, scaled, play, w).value;
      WalkFromKeeps(v, count, marks, buckets, h + 1, cwh, scaled, play, next);
    }
  }

  /** `build_scaled_durations` never gives a mark zero files, and gives each
      hold exactly one. */
  lemma {:induction false} ScaledSane(v: Variant, count: int, marks: seq<Mark>, buckets: seq<Bucket>, play: real)
    requires AllIndexes(marks, buckets) && Summed(marks, buckets)
    requires Scaled(v, count, marks, buckets, play).Ok?
    ensures Sane(marks, Scaled(v, count, marks, buckets, play).value)
  {
    var start := Walk(Unset(|marks|), 0, 0);
    assert buckets[..0] == [];
    WalkFromKeeps(v, count, marks, buckets, 0, count - HoldsTotal(buckets), ScaledTotal(buckets), play, start);
  }
}
