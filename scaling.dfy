/** `build_scaled_durations` and `skip_to_valid_list_of_files`: how many
    files of its group each mark shows. Every tempo bucket gets a share of
    the files that do not hold (`count_without_holds`) in proportion to its
    play duration times its tempo; within a bucket each mark gets a share
    in proportion to its duration, a hold gets one file, and rounding
    leftovers are corrected at the bucket's last mark. The per-mark counts
    (`label_entry["num_files"]`) are kept by the mark's position in the
    group's mark list: `None` until the mark is reached. */
module Scaling {
  import opened Base
  import opened Numbers
  import opened Assembly
  import opened Tempo

  /** Every position in `idx` names a mark. */
  predicate Indexes(marks: seq<Mark>, idx: seq<nat>) {
    forall k :: 0 <= k < |idx| ==> idx[k] < |marks|
  }

  predicate AllIndexes(marks: seq<Mark>, buckets: seq<Bucket>) {
    forall h :: 0 <= h < |buckets| ==> Indexes(marks, buckets[h].marks)
  }

  /** Can the mark at `idx[j]` absorb a correction? Not when it holds, has
      fewer than two files, or addresses its group by index or slice; `None`
      when its file count is read before it was stored (`KeyError`). */
  function Absorbs(marks: seq<Mark>, idx: seq<nat>, nfs: seq<Option<int>>, j: nat): Option<bool>
    requires |nfs| == |marks| && Indexes(marks, idx) && j < |idx|
  {
    var m := marks[idx[j]];
    if m.hold then Some(false)
    else match nfs[idx[j]]
      case None => None
      case Some(nf) => Some(!(nf < 2 || m.addressed))
  }

  /** `skip_to_valid_list_of_files` from slot `j`: the first slot that can
      absorb a correction; running off the end is an `IndexError`. */
  function SkipFrom(marks: seq<Mark>, idx: seq<nat>, nfs: seq<Option<int>>, j: nat): (r: Result<nat>)
    requires |nfs| == |marks| && Indexes(marks, idx)
    ensures r.Ok? ==> j <= r.value < |idx| && Absorbs(marks, idx, nfs, r.value) == Some(true)
    ensures r.Ok? ==> forall l :: j <= l < r.value ==> Absorbs(marks, idx, nfs, l) == Some(false)
    ensures (forall l :: j <= l < |idx| ==> marks[idx[l]].hold) ==> r == Err(IndexError)
    decreases |idx| - j
  {
    if j >= |idx| then Err(IndexError)
    else match Absorbs(marks, idx, nfs, j)
      case None => Err(KeyError)
      case Some(ok) => if ok then Ok(j) else SkipFrom(marks, idx, nfs, j + 1)
  }

  /** `skip_to_valid_list_of_files(marks)`. */
  method SkipToValid(marks: seq<Mark>, idx: seq<nat>, nfs: seq<Option<int>>) returns (r: Result<nat>)
    requires |nfs| == |marks| && Indexes(marks, idx)
    ensures r == SkipFrom(marks, idx, nfs, 0)
  {
    var j := 0;
    while true
      invariant 0 <= j <= |idx|
      invariant SkipFrom(marks, idx, nfs, 0) == SkipFrom(marks, idx, nfs, j)
      decreases |idx| - j
    {
      if j >= |idx| {
        return Err(IndexError);
      }
      var m := marks[idx[j]];
      if !m.hold {
        if nfs[idx[j]].None? {
          return Err(KeyError);
        }
        if !(nfs[idx[j]].value < 2 || m.addressed) {
          return Ok(j);
        }
      }
      j := j + 1;
    }
  }

  // ---------------------------------------------------------------------
  // One bucket

  /** The state of the loop over a bucket's marks: the file counts, the
      running `calc_files`, `tempo_file_count` and `nfilestotal`. */
  datatype Pass = Pass(nfs: seq<Option<int>>, used: int, tfc: int, nft: int)

  /** A mark's file count before the corrections at the bucket's end: one for
      a hold; otherwise its share of the bucket's `files_ratio` by
      duration, cut so that the running total never passes the ratio. Also
      the new `tempo_file_count`. */
  function Share(m: Mark, fr: int, play: real, tfc: int): (r: Result<(int, int)>)
    ensures r.Err? <==> !m.hold && play == 0.0
    ensures r.Ok? && m.hold ==> r.value == (1, tfc)
    ensures r.Ok? && !m.hold ==> r.value.0 == (if r.value.1 > fr then fr else r.value.1) - tfc
  {
    if m.hold then Ok((1, tfc))
    else if play == 0.0 then Err(ZeroDivisionError)
    else
      var raw := RoundHalfEven(fr as real * m.duration / play);
      var t := tfc + raw;
      Ok((if t > fr then raw - (t - fr) else raw, t))
  }

  /** The warning printed after a top-up or a trim names the group of the
      bucket's first mark, read off that mark's label. The standalone copy
      records the group only on the group's own label, which is the
      group's mark 0, and not on its `mark` labels; the message, formatted
      whether or not it is printed, then fails with `KeyError` when the
      bucket was opened by a `mark` label. The packaged copy records a
      group on both kinds of label. */
  predicate WarningFails(v: Variant, idx: seq<nat>) {
    v == Standalone && idx != [] && idx[0] != 0
  }

  /** At the bucket's last mark: when the bucket's marks got fewer files
      than its ratio, the first mark that can absorb it gets the rest, and
      the warning about it is formatted. */
  function TopUp(v: Variant, marks: seq<Mark>, idx: seq<nat>, fr: int, p: Pass): Result<Pass>
    requires |p.nfs| == |marks| && Indexes(marks, idx)
  {
    if p.nft < fr then
      var j :- SkipFrom(marks, idx, p.nfs, 0);
      var diff := fr - p.nft;
      if WarningFails(v, idx) then Err(KeyError)
      else Ok(Pass(p.nfs[idx[j] := Some(p.nfs[idx[j]].value + diff)], p.used + diff, p.tfc, fr))
    else Ok(p)
  }

  /** At the bucket's last mark: when the group has been given more files
      than it has, the excess is taken off the current mark (`k`, whose
      count is `nf`) once a mark that could absorb it has been found. The
      packaged copy takes it off its local count, which it stores next; the
      standalone copy, which has stored the count already, off the stored
      count. The warning about it is formatted as after a top-up. */
  function Trim(v: Variant, count: int, marks: seq<Mark>, idx: seq<nat>, k: nat, nf: int, p: Pass): Result<(Pass, int)>
    requires |p.nfs| == |marks| && Indexes(marks, idx) && k < |marks|
  {
    if p.used > count then
      var _ :- SkipFrom(marks, idx, p.nfs, 0);
      var diff := p.used - count;
      if WarningFails(v, idx) then Err(KeyError)
      else match v
      case Packaged => Ok((p.(used := p.used - diff), nf - diff))
      case Standalone =>
        match p.nfs[k]
        case None => Err(KeyError)
        case Some(stored) => Ok((p.(nfs := p.nfs[k := Some(stored - diff)], used := p.used - diff), nf))
    else Ok((p, nf))
  }

  /** The first part of one iteration of the loop over the marks of a
      bucket (`idx`), whose file ratio is `fr` and play duration `play`, for
      slot `i`: the mark's file count, which must not be zero, is added to
      the running totals. The standalone copy stores it at once. */
  function Staged(v: Variant, marks: seq<Mark>, idx: seq<nat>, fr: int, play: real, i: nat, p: Pass): (r: Result<(Pass, int)>)
    requires |p.nfs| == |marks| && Indexes(marks, idx) && i < |idx|
    ensures r.Ok? ==> r.value.1 != 0 && r.value.0.used == p.used + r.value.1
    ensures r.Ok? ==> r.value.0.nfs == if v == Standalone then p.nfs[idx[i] := Some(r.value.1)] else p.nfs
  {
    var k := idx[i];
    var m := marks[k];
    var (nf, tfc) :- Share(m, fr, play, p.tfc);
    var nft := if m.hold then p.nft else p.nft + nf;
    var nfs := if v == Standalone then p.nfs[k := Some(nf)] else p.nfs;
    if nf == 0 then Err(ZeroFiles)
    else Ok((Pass(nfs, p.used + nf, tfc, nft), nf))
  }

  /** The corrections at the bucket's last mark `k`, whose count is `nf`:
      the top-up, the trim, and then the packaged copy stores the count. */
  function LastFix(v: Variant, count: int, marks: seq<Mark>, idx: seq<nat>, fr: int, k: nat, nf: int, q: Pass): (r: Result<Pass>)
    requires |q.nfs| == |marks| && Indexes(marks, idx) && k < |marks|
    ensures r.Ok? ==> |r.value.nfs| == |marks|
  {
    var topped :- TopUp(v, marks, idx, fr, q);
    var (trimmed, nf') :- Trim(v, count, marks, idx, k, nf, topped);
    Ok(if v == Packaged then trimmed.(nfs := trimmed.nfs[k := Some(nf')]) else trimmed)
  }

  /** One iteration of the loop over the marks of a bucket, for slot `i`. */
  function MarkPass(v: Variant, count: int, marks: seq<Mark>, idx: seq<nat>, fr: int, play: real, i: nat, p: Pass): (r: Result<Pass>)
    requires |p.nfs| == |marks| && Indexes(marks, idx) && i < |idx|
    ensures r.Ok? ==> |r.value.nfs| == |marks|
  {
    var (q, nf) :- Staged(v, marks, idx, fr, play, i, p);
    var k := idx[i];
    if i < |idx| - 1 then
      Ok(if v == Packaged then q.(nfs := q.nfs[k := Some(nf)]) else q)
    else
      LastFix(v, count, marks, idx, fr, k, nf, q)
  }

  /** The loop over the marks of a bucket from slot `i`. */
  function PassFrom(v: Variant, count: int, marks: seq<Mark>, idx: seq<nat>, fr: int, play: real, i: nat, p: Pass): (r: Result<Pass>)
    requires |p.nfs| == |marks| && Indexes(marks, idx) && i <= |idx|
    ensures r.Ok? ==> |r.value.nfs| == |marks|
    decreases |idx| - i
  {
    if i == |idx| then Ok(p)
    else
      var q :- MarkPass(v, count, marks, idx, fr, play, i, p);
      PassFrom(v, count, marks, idx, fr, play, i + 1, q)
  }

  // ---------------------------------------------------------------------
  // All buckets

  /** The state of the loop over the buckets: the file counts, the running
      `calc_files` and `files_ratio_total`. */
  datatype Walk = Walk(nfs: seq<Option<int>>, used: int, frt: int)

  /** `files_ratio` before the cap: rounded, except that the packaged copy
      takes the ceiling for the first bucket when the files that do not
      hold are odd in number. */
  function FilesRatio(v: Variant, h: nat, cwh: int, tmp: real): int {
    if v == Packaged && h == 0 && cwh % 2 == 1 then Ceil(tmp) else RoundHalfEven(tmp)
  }

  /** A bucket's file ratio after the cap that keeps the running total
      within `count_without_holds`. */
  function Capped(raw: int, frt: int, cwh: int): (r: int)
    ensures r <= raw && frt + r <= cwh
    ensures frt + raw <= cwh ==> r == raw
  {
    if frt + raw > cwh then raw - (frt + raw - cwh) else raw
  }

  /** `count_without_holds * scaled_duration_ratio`: the bucket's share of
      the files that do not hold, before rounding. */
  function Portion(cwh: int, b: Bucket, scaled: real): real
    requires scaled != 0.0
  {
    cwh as real * (b.play * b.tempo / scaled)
  }

  /** One iteration of the loop over the buckets, for bucket `h`: the
      bucket's share of `cwh` is its play duration times its tempo over
      their sum `scaled` over all buckets. The source first scales every
      duration by `play / scaled` and then divides by the scaled total,
      which is `play`: with exact arithmetic that only raises
      `ZeroDivisionError` when `play` is zero and otherwise cancels. */
  function BucketStep(v: Variant, count: int, marks: seq<Mark>, buckets: seq<Bucket>, h: nat,
                      cwh: int, scaled: real, play: real, w: Walk): (r: Result<Walk>)
    requires |w.nfs| == |marks| && AllIndexes(marks, buckets) && h < |buckets|
    ensures r.Ok? ==> |r.value.nfs| == |marks|
  {
    var b := buckets[h];
    if play == 0.0 || scaled == 0.0 then Err(ZeroDivisionError)
    else
      var raw := FilesRatio(v, h, cwh, Portion(cwh, b, scaled));
      var fr := Capped(raw, w.frt, cwh);
      var p :- PassFrom(v, count, marks, b.marks, fr, b.play, 0, Pass(w.nfs, w.used, 0, 0));
      Ok(Walk(p.nfs, p.used, w.frt + raw))
  }

  /** The loop over the buckets from bucket `h`. */
  function WalkFrom(v: Variant, count: int, marks: seq<Mark>, buckets: seq<Bucket>, h: nat,
                    cwh: int, scaled: real, play: real, w: Walk): (r: Result<Walk>)
    requires |w.nfs| == |marks| && AllIndexes(marks, buckets) && h <= |buckets|
    ensures r.Ok? ==> |r.value.nfs| == |marks|
    decreases |buckets| - h
  {
    if h == |buckets| then Ok(w)
    else
      var next :- BucketStep(v, count, marks, buckets, h, cwh, scaled, play, w);
      WalkFrom(v, count, marks, buckets, h + 1, cwh, scaled, play, next)
  }

  function HoldsTotal(buckets: seq<Bucket>): int {
    if buckets == [] then 0 else HoldsTotal(buckets[..|buckets| - 1]) + buckets[|buckets| - 1].holds
  }

  function ScaledTotal(buckets: seq<Bucket>): real {
    if buckets == [] then 0.0
    else ScaledTotal(buckets[..|buckets| - 1]) + buckets[|buckets| - 1].play * buckets[|buckets| - 1].tempo
  }

  /** No mark has a file count yet. */
  function Unset(n: nat): (r: seq<Option<int>>)
  {
    seq(n, _ => None)
  }

  /** `build_scaled_durations(g, tempos, play_duration)`: the file count of
      every mark of a group of `count` files. */
  function Scaled(v: Variant, count: int, marks: seq<Mark>, buckets: seq<Bucket>, play: real): Result<seq<Option<int>>>
    requires AllIndexes(marks, buckets)
  {
    var cwh := count - HoldsTotal(buckets);
    var scaled := ScaledTotal(buckets);
    if scaled == 0.0 then Err(ZeroDivisionError)
    else
      var w :- WalkFrom(v, count, marks, buckets, 0, cwh, scaled, play, Walk(Unset(|marks|), 0, 0));
      if w.used != count then Err(CountMismatch) else Ok(w.nfs)
  }

  /** The inner loop of `build_scaled_durations`, over the marks of one
      bucket. */
  method PassMarks(v: Variant, count: int, marks: seq<Mark>, idx: seq<nat>, fr: int, play: real, first: Pass)
    returns (r: Result<Pass>)
    requires |first.nfs| == |marks| && Indexes(marks, idx)
    ensures r == PassFrom(v, count, marks, idx, fr, play, 0, first)
  {
    var p := first;
    for i := 0 to |idx|
      invariant |p.nfs| == |marks|
      invariant PassFrom(v, count, marks, idx, fr, play, 0, first) == PassFrom(v, count, marks, idx, fr, play, i, p)
    {
      var q := MarkPass(v, count, marks, idx, fr, play, i, p);
      if q.Err? {
        return Err(q.error);
      }
      p := q.value;
    }
    return Ok(p);
  }

  /** The first loop of `build_scaled_durations`: `count_without_holds`
      and the sum of the buckets' play durations scaled by their tempos. */
  method SumBuckets(count: int, buckets: seq<Bucket>) returns (cwh: int, scaled: real)
    ensures cwh == count - HoldsTotal(buckets) && scaled == ScaledTotal(buckets)
  {
    cwh, scaled := count, 0.0;
    for h := 0 to |buckets|
      invariant cwh == count - HoldsTotal(buckets[..h])
      invariant scaled == ScaledTotal(buckets[..h])
    {
      assert buckets[..h + 1][..h] == buckets[..h];
      cwh := cwh - buckets[h].holds;
      scaled := scaled + buckets[h].play * buckets[h].tempo;
    }
    assert buckets[..|buckets|] == buckets;
  }

  /** One iteration of the outer loop of `build_scaled_durations`. */
  method BucketPass(v: Variant, g: Group, buckets: seq<Bucket>, h: nat, cwh: int, scaled: real, play: real, w: Walk)
    returns (r: Result<Walk>)
    requires |w.nfs| == |g.marks| && AllIndexes(g.marks, buckets) && h < |buckets|
    ensures r == BucketStep(v, g.count, g.marks, buckets, h, cwh, scaled, play, w)
  {
    var b := buckets[h];
    if play == 0.0 || scaled == 0.0 {
      return Err(ZeroDivisionError);
    }
    var raw := FilesRatio(v, h, cwh, Portion(cwh, b, scaled));
    var fr := Capped(raw, w.frt, cwh);
    var pass := PassMarks(v, g.count, g.marks, b.marks, fr, b.play, Pass(w.nfs, w.used, 0, 0));
    if pass.Err? {
      return Err(pass.error);
    }
    return Ok(Walk(pass.value.nfs, pass.value.used, w.frt + raw));
  }

  /** `build_scaled_durations(g, tempos, play_duration)` for a group whose
      marks are sorted into `buckets`. */
  method ScaledDurations(v: Variant, g: Group, buckets: seq<Bucket>, play: real) returns (r: Result<seq<Option<int>>>)
    requires AllIndexes(g.marks, buckets)
    ensures r == Scaled(v, g.count, g.marks, buckets, play)
  {
    var cwh, scaled := SumBuckets(g.count, buckets);
    if scaled == 0.0 {
      return Err(ZeroDivisionError);
    }
    var start := Walk(Unset(|g.marks|), 0, 0);
    var w := start;
    for h := 0 to |buckets|
      invariant |w.nfs| == |g.marks|
      invariant WalkFrom(v, g.count, g.marks, buckets, 0, cwh, scaled, play, start)
             == WalkFrom(v, g.count, g.marks, buckets, h, cwh, scaled, play, w)
    {
      var next := BucketPass(v, g, buckets, h, cwh, scaled, play, w);
      if next.Err? {
        return Err(next.error);
      }
      w := next.value;
    }
    if w.used != g.count {
      return Err(CountMismatch);
    }
    return Ok(w.nfs);
  }
}
