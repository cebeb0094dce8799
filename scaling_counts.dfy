/** What `build_scaled_durations` guarantees about the totals: when the
    buckets are those `build_tempos_from_group` builds, a successful run
    gives every mark of the group a file count, and the counts add up to
    the group's file count. Each mark's count is stored exactly once, when
    the loop reaches it, and the running `calc_files` is at every step the
    sum of the counts stored so far. */
module ScalingCounts {
  import opened Base
  import opened Assembly
  import opened Tempo
  import opened Scaling
  import opened ScalingProofs

  // ---------------------------------------------------------------------
  // Sum of the stored counts

  function Val(o: Option<int>): int {
    if o.Some? then o.value else 0
  }

  /** Sum of the file counts stored so far. */
  function Total(nfs: seq<Option<int>>): int {
    if nfs == [] then 0 else Total(nfs[..|nfs| - 1]) + Val(nfs[|nfs| - 1])
  }

  /** Storing a count replaces the old one in the sum. */
  lemma {:induction false} TotalSet(nfs: seq<Option<int>>, k: nat, x: int)
    requires k < |nfs|
    ensures Total(nfs[k := Some(x)]) == Total(nfs) - Val(nfs[k]) + x
    decreases |nfs|
  {
    var r := nfs[k := Some(x)];
    if k < |nfs| - 1 {
      assert r[..|r| - 1] == nfs[..|nfs| - 1][k := Some(x)];
      TotalSet(nfs[..|nfs| - 1], k, x);
    } else {
      assert r[..|r| - 1] == nfs[..|nfs| - 1];
    }
  }

  /** No count stored: the sum is zero. */
  lemma {:induction false} TotalUnset(n: nat)
    ensures Total(Unset(n)) == 0
  {
    if n > 0 {
      assert Unset(n)[..n - 1] == Unset(n - 1);
      TotalUnset(n - 1);
    }
  }

  // ---------------------------------------------------------------------
  // Which counts are stored when

  /** Has the loop reached mark `k` before slot `i` of bucket `h`? Every
      mark belongs to the bucket of its tempo. */
  predicate Seen(marks: seq<Mark>, buckets: seq<Bucket>, h: nat, i: nat, k: nat)
    requires k < |marks|
  {
    match FindTempo(buckets, marks[k].tempo)
    case None => false
    case Some(g) => g < h || (g == h && i <= |buckets[g].marks| && k in buckets[g].marks[..i])
  }

  /** Exactly the marks reached so far have a count, and `calc_files` is
      their sum. */
  predicate Counted(marks: seq<Mark>, buckets: seq<Bucket>, h: nat, i: nat, nfs: seq<Option<int>>, used: int)
  {
    && |nfs| == |marks|
    && (forall k :: 0 <= k < |marks| ==> (nfs[k].Some? <==> Seen(marks, buckets, h, i, k)))
    && used == Total(nfs)
  }

  /** What the counting needs of the buckets: every mark listed in bucket
      `h` finds bucket `h` by its tempo, each list is increasing, and a
      mark that finds a bucket is listed in it. */
  predicate Homed(marks: seq<Mark>, buckets: seq<Bucket>) {
    && (forall h, i :: 0 <= h < |buckets| && 0 <= i < |buckets[h].marks| ==>
          buckets[h].marks[i] < |marks| && FindTempo(buckets, marks[buckets[h].marks[i]].tempo) == Some(h))
    && (forall h, i, j :: 0 <= h < |buckets| && 0 <= i < j < |buckets[h].marks| ==>
          buckets[h].marks[i] < buckets[h].marks[j])
    && (forall k :: 0 <= k < |marks| && FindTempo(buckets, marks[k].tempo).Some? ==>
          k in buckets[FindTempo(buckets, marks[k].tempo).value].marks)
  }

  /** The buckets `build_tempos_from_group` builds are homed. */
  lemma {:induction false} BucketedHomed(marks: seq<Mark>, buckets: seq<Bucket>)
    requires Bucketed(marks, |marks|, buckets)
    ensures Homed(marks, buckets)
  {
    forall h, i | 0 <= h < |buckets| && 0 <= i < |buckets[h].marks|
      ensures buckets[h].marks[i] < |marks| && FindTempo(buckets, marks[buckets[h].marks[i]].tempo) == Some(h)
    {
      assert BucketOk(marks, |marks|, buckets[h]);
      FindTempoDistinct(buckets, h);
    }
    forall h, i, j | 0 <= h < |buckets| && 0 <= i < j < |buckets[h].marks|
      ensures buckets[h].marks[i] < buckets[h].marks[j]
    {
      assert BucketOk(marks, |marks|, buckets[h]);
    }
    forall k | 0 <= k < |marks| && FindTempo(buckets, marks[k].tempo).Some?
      ensures k in buckets[FindTempo(buckets, marks[k].tempo).value].marks
    {
      assert BucketOk(marks, |marks|, buckets[FindTempo(buckets, marks[k].tempo).value]);
    }
  }

  /** With distinct tempos, a bucket's tempo finds that bucket. */
  lemma {:induction false} FindTempoDistinct(buckets: seq<Bucket>, h: nat)
    requires h < |buckets| && forall p, q :: 0 <= p < q < |buckets| ==> buckets[p].tempo != buckets[q].tempo
    ensures FindTempo(buckets, buckets[h].tempo) == Some(h)
  {
    FindTempoFirst(buckets, buckets[h].tempo);
  }

  /** A mark of bucket `g` finds bucket `g` by its tempo, and a mark whose
      tempo finds bucket `g` is in it. */
  lemma {:induction false} Home(marks: seq<Mark>, buckets: seq<Bucket>, g: nat, k: nat)
    requires Homed(marks, buckets) && g < |buckets| && k < |marks|
    ensures k in buckets[g].marks <==> FindTempo(buckets, marks[k].tempo) == Some(g)
  {
    if k in buckets[g].marks {
      var j :| 0 <= j < |buckets[g].marks| && buckets[g].marks[j] == k;
    }
  }

  /** The buckets `build_tempos_from_group` builds carry what the scaling
      needs. */
  lemma {:induction false} BucketedSummed(marks: seq<Mark>, buckets: seq<Bucket>)
    requires Bucketed(marks, |marks|, buckets)
    ensures AllIndexes(marks, buckets) && Summed(marks, buckets)
  {
    forall h | 0 <= h < |buckets|
      ensures Indexes(marks, buckets[h].marks)
    {
      assert BucketOk(marks, |marks|, buckets[h]);
    }
  }

  // ---------------------------------------------------------------------
  // One slot

  /** The top-up adds to a count already stored, and adds the same amount
      to `calc_files`. */
  lemma {:induction false} TopUpCounts(v: Variant, marks: seq<Mark>, idx: seq<nat>, fr: int, q: Pass, extra: int)
    requires |q.nfs| == |marks| && Indexes(marks, idx) && TopUp(v, marks, idx, fr, q).Ok?
    requires q.used == Total(q.nfs) + extra
    ensures var r := TopUp(v, marks, idx, fr, q).value;
            && |r.nfs| == |marks|
            && (forall k :: 0 <= k < |marks| ==> r.nfs[k].Some? == q.nfs[k].Some?)
            && r.used == Total(r.nfs) + extra
  {
    if q.nft < fr {
      var j := SkipFrom(marks, idx, q.nfs, 0).value;
      TotalSet(q.nfs, idx[j], q.nfs[idx[j]].value + (fr - q.nft));
    }
  }

  /** Moving on by one slot adds the slot's mark to those reached. */
  lemma {:induction false} SeenStep(marks: seq<Mark>, buckets: seq<Bucket>, h: nat, i: nat)
    requires h < |buckets| && i < |buckets[h].marks| && buckets[h].marks[i] < |marks|
    requires FindTempo(buckets, marks[buckets[h].marks[i]].tempo) == Some(h)
    ensures forall k :: 0 <= k < |marks| ==>
              (Seen(marks, buckets, h, i + 1, k) <==> Seen(marks, buckets, h, i, k) || k == buckets[h].marks[i])
  {
    var idx := buckets[h].marks;
    assert idx[..i + 1] == idx[..i] + [idx[i]];
    forall k | 0 <= k < |marks|
      ensures Seen(marks, buckets, h, i + 1, k) <==> Seen(marks, buckets, h, i, k) || k == idx[i]
    {
      if FindTempo(buckets, marks[k].tempo) == Some(h) {
        assert k in idx[..i + 1] <==> k in idx[..i] || k == idx[i];
      }
    }
  }

  /** Slot `i` of bucket `h` reaches a mark that has no count yet. */
  lemma {:induction false} Reach(marks: seq<Mark>, buckets: seq<Bucket>, h: nat, i: nat, nfs: seq<Option<int>>, used: int)
    requires Homed(marks, buckets) && h < |buckets| && i < |buckets[h].marks|
    requires Counted(marks, buckets, h, i, nfs, used)
    ensures buckets[h].marks[i] < |marks| && nfs[buckets[h].marks[i]].None?
    ensures forall k :: 0 <= k < |marks| ==>
              (Seen(marks, buckets, h, i + 1, k) <==> Seen(marks, buckets, h, i, k) || k == buckets[h].marks[i])
  {
    var idx := buckets[h].marks;
    var k := idx[i];
    assert k < |marks|;
    assert k !in idx[..i] by {
      forall l | 0 <= l < i ensures idx[l] != k {
        assert idx[l] < idx[i];
      }
    }
    assert !Seen(marks, buckets, h, i, k);
    SeenStep(marks, buckets, h, i);
  }

  /** Storing the count of the mark slot `i` reaches, and adding it to
      `calc_files`, moves the state on by one slot. */
  lemma {:induction false} Store(marks: seq<Mark>, buckets: seq<Bucket>, h: nat, i: nat, nfs: seq<Option<int>>, used: int, nf: int)
    requires Homed(marks, buckets) && h < |buckets| && i < |buckets[h].marks|
    requires Counted(marks, buckets, h, i, nfs, used)
    ensures buckets[h].marks[i] < |marks|
    ensures Counted(marks, buckets, h, i + 1, nfs[buckets[h].marks[i] := Some(nf)], used + nf)
  {
    Reach(marks, buckets, h, i, nfs, used);
    TotalSet(nfs, buckets[h].marks[i], nf);
  }

  /** Two states with counts in the same places are counted alike. */
  lemma {:induction false} SameSlots(marks: seq<Mark>, buckets: seq<Bucket>, h: nat, i: nat,
                                     a: seq<Option<int>>, b: seq<Option<int>>, used: int)
    requires Counted(marks, buckets, h, i, a, Total(a)) && |b| == |a|
    requires forall k :: 0 <= k < |a| ==> a[k].Some? == b[k].Some?
    requires used == Total(b)
    ensures Counted(marks, buckets, h, i, b, used)
  {
  }

  /** The packaged copy stores the last mark's count after the top-up,
      which cannot have touched it. */
  lemma {:induction false} StoreAfterTopUp(v: Variant, marks: seq<Mark>, idx: seq<nat>, fr: int, q: Pass, k: nat, nf: int)
    requires |q.nfs| == |marks| && Indexes(marks, idx) && TopUp(v, marks, idx, fr, q).Ok?
    requires k < |marks| && q.nfs[k].None? && q.used == Total(q.nfs) + nf
    ensures var t := TopUp(v, marks, idx, fr, q).value;
            && |t.nfs| == |marks|
            && (forall l :: 0 <= l < |marks| ==> t.nfs[l].Some? == q.nfs[l].Some?)
            && t.used == Total(t.nfs[k := Some(nf)])
  {
    TopUpCounts(v, marks, idx, fr, q, nf);
    var t := TopUp(v, marks, idx, fr, q).value;
    TotalSet(t.nfs, k, nf);
  }

  /** The last slot of a bucket: the top-up only adds to a stored count
      and the trim is idle, so what is stored and summed stays in step. */
  lemma {:induction false} LastCounts(v: Variant, count: int, marks: seq<Mark>, buckets: seq<Bucket>, h: nat,
                                      fr: int, play: real, i: nat, p: Pass, start: int, r: Pass)
    requires Homed(marks, buckets) && h < |buckets|
    requires var idx := buckets[h].marks;
             && Indexes(marks, idx) && |p.nfs| == |marks| && i + 1 == |idx|
             && PassInv(marks, idx, fr, start, i, p)
             && (HoldCount(marks, idx) < |idx| ==> start + HoldCount(marks, idx) + fr <= count)
             && MarkPass(v, count, marks, idx, fr, play, i, p) == Ok(r)
    requires Counted(marks, buckets, h, i, p.nfs, p.used)
    ensures Counted(marks, buckets, h, i + 1, r.nfs, r.used)
  {
    var idx := buckets[h].marks;
    var k := idx[i];
    MarkPassLast(v, count, marks, idx, fr, play, i, p, start);
    var (q, nf) := Staged(v, marks, idx, fr, play, i, p).value;
    var t := TopUp(v, marks, idx, fr, q).value;
    Reach(marks, buckets, h, i, p.nfs, p.used);
    Store(marks, buckets, h, i, p.nfs, p.used, nf);
    if v == Packaged {
      LastStorePackaged(v, marks, idx, fr, k, p, q, nf, t, r);
    } else {
      TopUpCounts(v, marks, idx, fr, q, 0);
    }
    SameSlots(marks, buckets, h, i + 1, p.nfs[k := Some(nf)], r.nfs, r.used);
  }

  /** The packaged copy stores the last mark's count after the top-up:
      the counts are where they would be had it been stored first. */
  lemma {:induction false} LastStorePackaged(v: Variant, marks: seq<Mark>, idx: seq<nat>, fr: int, k: nat,
                                             p: Pass, q: Pass, nf: int, t: Pass, r: Pass)
    requires Indexes(marks, idx) && |p.nfs| == |marks| && k < |marks| && p.nfs[k].None?
    requires p.used == Total(p.nfs) && q.used == p.used + nf && q.nfs == p.nfs
    requires TopUp(v, marks, idx, fr, q) == Ok(t) && r == t.(nfs := t.nfs[k := Some(nf)])
    ensures |r.nfs| == |marks| && r.used == Total(r.nfs)
    ensures forall l :: 0 <= l < |marks| ==> r.nfs[l].Some? == p.nfs[k := Some(nf)][l].Some?
  {
    StoreAfterTopUp(v, marks, idx, fr, q, k, nf);
    forall l | 0 <= l < |marks|
      ensures r.nfs[l].Some? == p.nfs[k := Some(nf)][l].Some?
    {
      if l != k {
        assert r.nfs[l] == t.nfs[l];
      }
    }
  }

  /** A slot before the bucket's last stores the mark's count and adds it
      to `calc_files`. */
  lemma {:induction false} MidCounts(v: Variant, count: int, marks: seq<Mark>, buckets: seq<Bucket>, h: nat,
                                     fr: int, play: real, i: nat, p: Pass, r: Pass)
    requires Homed(marks, buckets) && h < |buckets|
    requires var idx := buckets[h].marks;
             && Indexes(marks, idx) && |p.nfs| == |marks| && i + 1 < |idx|
             && MarkPass(v, count, marks, idx, fr, play, i, p) == Ok(r)
    requires Counted(marks, buckets, h, i, p.nfs, p.used)
    ensures Counted(marks, buckets, h, i + 1, r.nfs, r.used)
  {
    var nf := MidShape(v, count, marks, buckets[h].marks, fr, play, i, p, r);
    Store(marks, buckets, h, i, p.nfs, p.used, nf);
  }

  /** A slot before the bucket's last stores the mark's count `nf` and adds
      it to `calc_files`, in both copies. */
  lemma {:induction false} MidShape(v: Variant, count: int, marks: seq<Mark>, idx: seq<nat>, fr: int, play: real,
                                    i: nat, p: Pass, r: Pass) returns (nf: int)
    requires Indexes(marks, idx) && |p.nfs| == |marks| && i + 1 < |idx|
    requires MarkPass(v, count, marks, idx, fr, play, i, p) == Ok(r)
    ensures r.nfs == p.nfs[idx[i] := Some(nf)] && r.used == p.used + nf
  {
    nf := Staged(v, marks, idx, fr, play, i, p).value.1;
  }

  /** The slot reaches a mark that had no count, and stores it. */
  lemma {:induction false} MarkPassCounts(v: Variant, count: int, marks: seq<Mark>, buckets: seq<Bucket>, h: nat,
                                          fr: int, play: real, i: nat, p: Pass, start: int, q: Pass)
    requires Homed(marks, buckets) && h < |buckets|
    requires var idx := buckets[h].marks;
             && Indexes(marks, idx) && |p.nfs| == |marks| && i < |idx|
             && PassInv(marks, idx, fr, start, i, p)
             && (HoldCount(marks, idx) < |idx| ==> start + HoldCount(marks, idx) + fr <= count)
             && MarkPass(v, count, marks, idx, fr, play, i, p) == Ok(q)
    requires Counted(marks, buckets, h, i, p.nfs, p.used)
    ensures Counted(marks, buckets, h, i + 1, q.nfs, q.used)
  {
    var idx := buckets[h].marks;
    if i + 1 == |idx| {
      LastCounts(v, count, marks, buckets, h, fr, play, i, p, start, q);
    } else {
      MidCounts(v, count, marks, buckets, h, fr, play, i, p, q);
    }
  }

  // ---------------------------------------------------------------------
  // One bucket, all buckets

  /** A pass from slot `i` is slot `i`'s outcome followed by the pass from
      slot `i + 1`, the empty pass being the state it starts from. */
  lemma {:induction false} PassFromStep(v: Variant, count: int, marks: seq<Mark>, idx: seq<nat>, fr: int, play: real, i: nat, p: Pass)
    requires Indexes(marks, idx) && |p.nfs| == |marks| && i < |idx|
    requires PassFrom(v, count, marks, idx, fr, play, i, p).Ok?
    ensures MarkPass(v, count, marks, idx, fr, play, i, p).Ok?
    ensures var q := MarkPass(v, count, marks, idx, fr, play, i, p).value;
            && PassFrom(v, count, marks, idx, fr, play, i, p) == PassFrom(v, count, marks, idx, fr, play, i + 1, q)
            && (i + 1 == |idx| ==> PassFrom(v, count, marks, idx, fr, play, i, p) == Ok(q))
  {
  }

  /** What a pass from slot `i` of bucket `h` starts from. */
  predicate PassReady(v: Variant, count: int, marks: seq<Mark>, buckets: seq<Bucket>, h: nat,
                      fr: int, play: real, i: nat, p: Pass, start: int, r: Pass)
  {
    && Homed(marks, buckets) && h < |buckets|
    && var idx := buckets[h].marks;
    && Indexes(marks, idx) && |p.nfs| == |marks| && i < |idx|
    && PassInv(marks, idx, fr, start, i, p)
    && (HoldCount(marks, idx) < |idx| ==> start + HoldCount(marks, idx) + fr <= count)
    && PassFrom(v, count, marks, idx, fr, play, i, p) == Ok(r)
    && Counted(marks, buckets, h, i, p.nfs, p.used)
  }

  lemma {:induction false} PassFromCounts(v: Variant, count: int, marks: seq<Mark>, buckets: seq<Bucket>, h: nat,
                                          fr: int, play: real, i: nat, p: Pass, start: int, r: Pass)
    requires PassReady(v, count, marks, buckets, h, fr, play, i, p, start, r)
    ensures Counted(marks, buckets, h, |buckets[h].marks|, r.nfs, r.used)
    decreases |buckets[h].marks| - i
  {
    var idx := buckets[h].marks;
    var q := MarkPass(v, count, marks, idx, fr, play, i, p).value;
    PassFromStep(v, count, marks, idx, fr, play, i, p);
    MarkPassCounts(v, count, marks, buckets, h, fr, play, i, p, start, q);
    if i + 1 < |idx| {
      MarkPassKeeps(v, count, marks, idx, fr, play, i, p, start);
      assert PassReady(v, count, marks, buckets, h, fr, play, i + 1, q, start, r);
      PassFromCounts(v, count, marks, buckets, h, fr, play, i + 1, q, start, r);
    }
  }

  /** Having reached every mark of bucket `h` is having reached every mark
      of the buckets before `h + 1`. */
  lemma {:induction false} BucketEnd(marks: seq<Mark>, buckets: seq<Bucket>, h: nat, nfs: seq<Option<int>>, used: int)
    requires Homed(marks, buckets) && h < |buckets|
    requires Counted(marks, buckets, h, |buckets[h].marks|, nfs, used)
    ensures Counted(marks, buckets, h + 1, 0, nfs, used)
  {
    var idx := buckets[h].marks;
    assert idx[..|idx|] == idx;
    forall k | 0 <= k < |marks|
      ensures Seen(marks, buckets, h, |idx|, k) <==> Seen(marks, buckets, h + 1, 0, k)
    {
      Home(marks, buckets, h, k);
    }
  }

  /** A bucket that succeeds is a pass over its marks from the walk's
      counts, with the ratio the bucket's share gives. */
  lemma {:induction false} BucketShape(v: Variant, count: int, marks: seq<Mark>, buckets: seq<Bucket>, h: nat,
                                       cwh: int, scaled: real, play: real, w: Walk, r: Walk) returns (p: Pass)
    requires AllIndexes(marks, buckets) && |w.nfs| == |marks| && h < |buckets|
    requires BucketStep(v, count, marks, buckets, h, cwh, scaled, play, w) == Ok(r)
    ensures scaled != 0.0
    ensures var b := buckets[h];
            var fr := Capped(FilesRatio(v, h, cwh, Portion(cwh, b, scaled)), w.frt, cwh);
            PassFrom(v, count, marks, b.marks, fr, b.play, 0, Pass(w.nfs, w.used, 0, 0)) == Ok(p)
    ensures r.nfs == p.nfs && r.used == p.used
  {
    var b := buckets[h];
    var fr := Capped(FilesRatio(v, h, cwh, Portion(cwh, b, scaled)), w.frt, cwh);
    p := PassFrom(v, count, marks, b.marks, fr, b.play, 0, Pass(w.nfs, w.used, 0, 0)).value;
  }

  lemma {:induction false} BucketStepCounts(v: Variant, count: int, marks: seq<Mark>, buckets: seq<Bucket>, h: nat,
                                            cwh: int, scaled: real, play: real, w: Walk, r: Walk)
    requires Homed(marks, buckets) && AllIndexes(marks, buckets) && Summed(marks, buckets)
    requires |w.nfs| == |marks| && h < |buckets|
    requires cwh == count - HoldsTotal(buckets)
    requires WalkInv(marks, buckets, h, w) && Counted(marks, buckets, h, 0, w.nfs, w.used)
    requires BucketStep(v, count, marks, buckets, h, cwh, scaled, play, w) == Ok(r)
    ensures Counted(marks, buckets, h + 1, 0, r.nfs, r.used)
  {
    var b := buckets[h];
    var fr := Capped(FilesRatio(v, h, cwh, Portion(cwh, b, scaled)), w.frt, cwh);
    var p := BucketShape(v, count, marks, buckets, h, cwh, scaled, play, w, r);
    BucketFits(v, count, marks, buckets, h, cwh, scaled, w);
    var start := Pass(w.nfs, w.used, 0, 0);
    assert PassReady(v, count, marks, buckets, h, fr, b.play, 0, start, w.used, p);
    PassFromCounts(v, count, marks, buckets, h, fr, b.play, 0, start, w.used, p);
    BucketEnd(marks, buckets, h, p.nfs, p.used);
  }

  lemma {:induction false} WalkFromCounts(v: Variant, count: int, marks: seq<Mark>, buckets: seq<Bucket>, h: nat,
                                          cwh: int, scaled: real, play: real, w: Walk, r: Walk)
    requires Homed(marks, buckets) && AllIndexes(marks, buckets) && Summed(marks, buckets)
    requires |w.nfs| == |marks| && h <= |buckets|
    requires cwh == count - HoldsTotal(buckets)
    requires WalkInv(marks, buckets, h, w) && Counted(marks, buckets, h, 0, w.nfs, w.used)
    requires WalkFrom(v, count, marks, buckets, h, cwh, scaled, play, w) == Ok(r)
    ensures Counted(marks, buckets, |buckets|, 0, r.nfs, r.used)
    decreases |buckets| - h
  {
    if h < |buckets| {
      BucketStepKeeps(v, count, marks, buckets, h, cwh, scaled, play, w);
      var next := BucketStep(v, count, marks, buckets, h, cwh, scaled, play, w).value;
      BucketStepCounts(v, count, marks, buckets, h, cwh, scaled, play, w, next);
      WalkFromCounts(v, count, marks, buckets, h + 1, cwh, scaled, play, next, r);
    }
  }

  // ---------------------------------------------------------------------
  // One group

  /** A successful scaling is a walk over all buckets from no counts that
      used exactly `count` files. */
  lemma {:induction false} ScaledShape(v: Variant, count: int, marks: seq<Mark>, buckets: seq<Bucket>, play: real,
                                       nfs: seq<Option<int>>, cwh: int, scaled: real, start: Walk) returns (w: Walk)
    requires AllIndexes(marks, buckets)
    requires Scaled(v, count, marks, buckets, play) == Ok(nfs)
    requires cwh == count - HoldsTotal(buckets) && scaled == ScaledTotal(buckets)
    requires start == Walk(Unset(|marks|), 0, 0)
    ensures scaled != 0.0
    ensures WalkFrom(v, count, marks, buckets, 0, cwh, scaled, play, start) == Ok(w)
    ensures w.nfs == nfs && w.used == count
  {
    w := WalkFrom(v, count, marks, buckets, 0, cwh, scaled, play, start).value;
  }

  /** `build_scaled_durations` on the buckets of a group: when it succeeds,
      every mark of the group has a file count, no count is zero, each hold
      has one file, and the counts add up to the group's `count`. */
  lemma {:induction false} ScaledCounts(v: Variant, count: int, marks: seq<Mark>, buckets: seq<Bucket>, play: real,
                                        nfs: seq<Option<int>>)
    requires Bucketed(marks, |marks|, buckets) && AllIndexes(marks, buckets)
    requires Scaled(v, count, marks, buckets, play) == Ok(nfs)
    ensures |nfs| == |marks|
    ensures forall k :: 0 <= k < |marks| ==>
              nfs[k].Some? && nfs[k].value != 0 && (marks[k].hold ==> nfs[k].value == 1)
    ensures Total(nfs) == count
  {
    BucketedSummed(marks, buckets);
    BucketedHomed(marks, buckets);
    ScaledSane(v, count, marks, buckets, play);
    SeenAll(marks, buckets);
    var cwh, scaled := count - HoldsTotal(buckets), ScaledTotal(buckets);
    var start := Walk(Unset(|marks|), 0, 0);
    var w := ScaledShape(v, count, marks, buckets, play, nfs, cwh, scaled, start);
    StartCounted(marks, buckets, start);
    HomedCounts(v, count, marks, buckets, cwh, scaled, play, start, w);
  }

  /** Once past the last bucket, every mark whose tempo has a bucket was
      reached. */
  lemma {:induction false} SeenAll(marks: seq<Mark>, buckets: seq<Bucket>)
    requires Bucketed(marks, |marks|, buckets)
    ensures forall k :: 0 <= k < |marks| ==> Seen(marks, buckets, |buckets|, 0, k)
  {
    forall k | 0 <= k < |marks|
      ensures Seen(marks, buckets, |buckets|, 0, k)
    {
      assert FindTempo(buckets, marks[k].tempo).Some?;
    }
  }

  /** The counting part of `ScaledCounts`: a walk over all buckets from no
      counts reaches every mark, and `calc_files` is the sum of the counts. */
  lemma {:induction false} HomedCounts(v: Variant, count: int, marks: seq<Mark>, buckets: seq<Bucket>,
                                       cwh: int, scaled: real, play: real, start: Walk, w: Walk)
    requires Homed(marks, buckets) && AllIndexes(marks, buckets) && Summed(marks, buckets)
    requires forall k :: 0 <= k < |marks| ==> Seen(marks, buckets, |buckets|, 0, k)
    requires |start.nfs| == |marks|
    requires WalkInv(marks, buckets, 0, start) && Counted(marks, buckets, 0, 0, start.nfs, start.used)
    requires cwh == count - HoldsTotal(buckets)
    requires WalkFrom(v, count, marks, buckets, 0, cwh, scaled, play, start) == Ok(w)
    ensures |w.nfs| == |marks| && Total(w.nfs) == w.used
    ensures forall k :: 0 <= k < |marks| ==> w.nfs[k].Some?
  {
    WalkFromCounts(v, count, marks, buckets, 0, cwh, scaled, play, start, w);
    CountedAll(marks, buckets, w.nfs, w.used);
  }

  /** Past the last bucket, with every mark reached, every mark has a count. */
  lemma {:induction false} CountedAll(marks: seq<Mark>, buckets: seq<Bucket>, nfs: seq<Option<int>>, used: int)
    requires forall k :: 0 <= k < |marks| ==> Seen(marks, buckets, |buckets|, 0, k)
    requires Counted(marks, buckets, |buckets|, 0, nfs, used)
    ensures |nfs| == |marks| && Total(nfs) == used
    ensures forall k :: 0 <= k < |marks| ==> nfs[k].Some?
  {
  }

  /** Before the first bucket no mark has a count and nothing is used. */
  lemma {:induction false} StartCounted(marks: seq<Mark>, buckets: seq<Bucket>, start: Walk)
    requires start == Walk(Unset(|marks|), 0, 0)
    ensures WalkInv(marks, buckets, 0, start)
    ensures Counted(marks, buckets, 0, 0, start.nfs, start.used)
  {
    assert buckets[..0] == [];
    TotalUnset(|marks|);
  }

  /** `build_tempos_from_group` followed by `build_scaled_durations`: the
      file counts of the marks of a group of `count` files. */
  function GroupScaled(v: Variant, count: int, marks: seq<Mark>): Result<seq<Option<int>>> {
    var (buckets, play) := Tempos(marks);
    TemposMeaning(marks);
    BucketedSummed(marks, buckets);
    Scaled(v, count, marks, buckets, play)
  }

  /** What a successful scaling of a group promises. */
  lemma {:induction false} GroupScaledCounts(v: Variant, count: int, marks: seq<Mark>, nfs: seq<Option<int>>)
    requires GroupScaled(v, count, marks) == Ok(nfs)
    ensures |nfs| == |marks|
    ensures forall k :: 0 <= k < |marks| ==>
              nfs[k].Some? && nfs[k].value != 0 && (marks[k].hold ==> nfs[k].value == 1)
    ensures Total(nfs) == count
  {
    var (buckets, play) := Tempos(marks);
    TemposMeaning(marks);
    BucketedSummed(marks, buckets);
    ScaledCounts(v, count, marks, buckets, play, nfs);
  }

  /** Buckets that all play for no time scale to nothing. */
  lemma {:induction false} ScaledTotalZero(buckets: seq<Bucket>)
    requires forall h :: 0 <= h < |buckets| ==> buckets[h].play == 0.0
    ensures ScaledTotal(buckets) == 0.0
    decreases |buckets|
  {
    if buckets != [] {
      ScaledTotalZero(buckets[..|buckets| - 1]);
    }
  }

  /** A group whose marks all hold (or that has no marks) fails with
      `ZeroDivisionError`: the scaled durations sum to zero. */
  lemma {:induction false} AllHoldsFail(v: Variant, count: int, marks: seq<Mark>)
    requires forall k :: 0 <= k < |marks| ==> marks[k].hold
    ensures GroupScaled(v, count, marks) == Err(ZeroDivisionError)
  {
    var (buckets, play) := Tempos(marks);
    TemposMeaning(marks);
    BucketedSummed(marks, buckets);
    HoldBucketsIdle(marks, buckets);
    ScaledTotalZero(buckets);
  }

  /** Buckets of marks that all hold play for no time. */
  lemma {:induction false} HoldBucketsIdle(marks: seq<Mark>, buckets: seq<Bucket>)
    requires forall k :: 0 <= k < |marks| ==> marks[k].hold
    requires AllIndexes(marks, buckets) && Summed(marks, buckets)
    ensures forall h :: 0 <= h < |buckets| ==> buckets[h].play == 0.0
  {
    forall h | 0 <= h < |buckets|
      ensures buckets[h].play == 0.0
    {
      assert Indexes(marks, buckets[h].marks);
      HoldsPlayNothing(marks, buckets[h].marks);
    }
  }
}
