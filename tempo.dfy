/** `build_tempos_from_group`: the marks of one group sorted into tempo
    buckets, in the order each tempo first appears, with each bucket's total
    duration, its play duration (the time of marks that do not hold) and its
    number of holds; and the play duration of the whole group. */
module Tempo {
  import opened Base
  import opened Assembly

  /** `tempos[t]`: the marks at tempo `t` (as positions in the group's mark
      list) and the sums over them. */
  datatype Bucket = Bucket(tempo: real, marks: seq<nat>, total: real, play: real, holds: nat)

  /** `t in tempos`, and where. */
  function FindTempo(buckets: seq<Bucket>, t: real): (r: Option<nat>)
    ensures r.Some? ==> r.value < |buckets| && buckets[r.value].tempo == t
  {
    if buckets == [] then None
    else if buckets[0].tempo == t then Some(0)
    else
      match FindTempo(buckets[1..], t)
      case None => None
      case Some(p) => Some(p + 1)
  }

  /** A tempo is missing exactly when no bucket has it, and is found at its
      first bucket. */
  lemma {:induction false} FindTempoFirst(buckets: seq<Bucket>, t: real)
    ensures FindTempo(buckets, t).None? <==> forall p :: 0 <= p < |buckets| ==> buckets[p].tempo != t
    ensures FindTempo(buckets, t).Some? ==> forall p :: 0 <= p < FindTempo(buckets, t).value ==> buckets[p].tempo != t
    decreases |buckets|
  {
    if buckets != [] {
      FindTempoFirst(buckets[1..], t);
      if buckets[0].tempo != t {
        forall p | 0 <= p < |buckets| && buckets[p].tempo == t
          ensures p > 0 && buckets[1..][p - 1].tempo == t
        {
        }
      }
    }
  }

  /** Appending a bucket leaves the tempos already present where they were. */
  lemma {:induction false} FindTempoAppend(buckets: seq<Bucket>, b: Bucket, t: real)
    ensures FindTempo(buckets + [b], t) ==
              if FindTempo(buckets, t).Some? then FindTempo(buckets, t)
              else if b.tempo == t then Some(|buckets|) else None
    decreases |buckets|
  {
    if buckets != [] {
      assert (buckets + [b])[1..] == buckets[1..] + [b];
      FindTempoAppend(buckets[1..], b, t);
    }
  }

  /** One iteration: mark `i` joins the bucket of its tempo, which is opened
      when the tempo is new. */
  function AddMark(buckets: seq<Bucket>, i: nat, m: Mark): seq<Bucket> {
    var play := if m.hold then 0.0 else m.duration;
    var holds := if m.hold then 1 else 0;
    match FindTempo(buckets, m.tempo)
    case None => buckets + [Bucket(m.tempo, [i], m.duration, play, holds)]
    case Some(p) =>
      var b := buckets[p];
      buckets[p := b.(marks := b.marks + [i], total := b.total + m.duration,
                      play := b.play + play, holds := b.holds + holds)]
  }

  /** The loop from mark `n` on, given the buckets and the play duration
      gathered from the marks before it. */
  function TemposFrom(marks: seq<Mark>, n: nat, buckets: seq<Bucket>, play: real): (seq<Bucket>, real)
    requires n <= |marks|
    decreases |marks| - n
  {
    if n == |marks| then (buckets, play)
    else
      var m := marks[n];
      TemposFrom(marks, n + 1, AddMark(buckets, n, m), play + if m.hold then 0.0 else m.duration)
  }

  /** The buckets and the play duration of the whole group. */
  function Tempos(marks: seq<Mark>): (seq<Bucket>, real) {
    TemposFrom(marks, 0, [], 0.0)
  }

  /** `build_tempos_from_group(group)`. */
  method BuildTempos(marks: seq<Mark>) returns (buckets: seq<Bucket>, play: real)
    ensures (buckets, play) == Tempos(marks)
  {
    buckets, play := [], 0.0;
    for n := 0 to |marks|
      invariant TemposFrom(marks, n, buckets, play) == Tempos(marks)
    {
      var m := marks[n];
      var next := AddMark(buckets, n, m);
      var played := if m.hold then play else play + m.duration;
      assert TemposFrom(marks, n, buckets, play) == TemposFrom(marks, n + 1, next, played);
      buckets, play := next, played;
    }
  }

  // ---------------------------------------------------------------------
  // The buckets described directly

  /** Number of holds among the given marks. */
  function HoldCount(marks: seq<Mark>, idx: seq<nat>): nat
    requires forall k :: 0 <= k < |idx| ==> idx[k] < |marks|
  {
    if idx == [] then 0
    else HoldCount(marks, idx[..|idx| - 1]) + if marks[idx[|idx| - 1]].hold then 1 else 0
  }

  /** Sum of the durations of the given marks that do not hold. */
  function PlaySum(marks: seq<Mark>, idx: seq<nat>): real
    requires forall k :: 0 <= k < |idx| ==> idx[k] < |marks|
  {
    if idx == [] then 0.0
    else PlaySum(marks, idx[..|idx| - 1]) + if marks[idx[|idx| - 1]].hold then 0.0 else marks[idx[|idx| - 1]].duration
  }

  /** Sum of the durations of the given marks. */
  function TotalSum(marks: seq<Mark>, idx: seq<nat>): real
    requires forall k :: 0 <= k < |idx| ==> idx[k] < |marks|
  {
    if idx == [] then 0.0 else TotalSum(marks, idx[..|idx| - 1]) + marks[idx[|idx| - 1]].duration
  }

  /** Sum of the buckets' play durations. */
  function BucketPlay(buckets: seq<Bucket>): real {
    if buckets == [] then 0.0 else BucketPlay(buckets[..|buckets| - 1]) + buckets[|buckets| - 1].play
  }

  /** Play duration of the first `n` marks. */
  function PlayOfFirst(marks: seq<Mark>, n: nat): real
    requires n <= |marks|
  {
    if n == 0 then 0.0 else PlayOfFirst(marks, n - 1) + if marks[n - 1].hold then 0.0 else marks[n - 1].duration
  }

  /** A bucket after the first `n` marks: it lists, in order, exactly the
      marks at its tempo, and holds their total duration, play duration and
      number of holds. */
  predicate BucketOk(marks: seq<Mark>, n: nat, b: Bucket)
    requires n <= |marks|
  {
    && b.marks != []
    && TempoIndexes(marks, n, b.marks, b.tempo)
    && b.holds == HoldCount(marks, b.marks)
    && b.play == PlaySum(marks, b.marks)
    && b.total == TotalSum(marks, b.marks)
  }

  /** `idx` lists, in increasing order, exactly the first `n` marks at
      `tempo`. */
  predicate TempoIndexes(marks: seq<Mark>, n: nat, idx: seq<nat>, tempo: real)
    requires n <= |marks|
  {
    && (forall k :: 0 <= k < |idx| ==> idx[k] < n && marks[idx[k]].tempo == tempo)
    && (forall k, l :: 0 <= k < l < |idx| ==> idx[k] < idx[l])
    && (forall i :: 0 <= i < n && marks[i].tempo == tempo ==> i in idx)
  }

  /** What the buckets are after the first `n` marks: one per distinct
      tempo met so far, each as `BucketOk` describes. */
  predicate Bucketed(marks: seq<Mark>, n: nat, buckets: seq<Bucket>)
    requires n <= |marks|
  {
    && (forall p, q :: 0 <= p < q < |buckets| ==> buckets[p].tempo != buckets[q].tempo)
    && (forall i :: 0 <= i < n ==> FindTempo(buckets, marks[i].tempo).Some?)
    && forall p :: 0 <= p < |buckets| ==> BucketOk(marks, n, buckets[p])
  }

  /** The buckets are in the order in which their tempos first appear
      among the first `n` marks: each bucket's first mark comes before the
      first mark of every later bucket. */
  predicate FirstSeenOrder(buckets: seq<Bucket>, n: nat) {
    && (forall p :: 0 <= p < |buckets| ==> buckets[p].marks != [] && buckets[p].marks[0] < n)
    && (forall p, q :: 0 <= p < q < |buckets| ==> buckets[p].marks[0] < buckets[q].marks[0])
  }

  /** One iteration keeps the buckets in first-appearance order: a new
      tempo's bucket goes last, and a join leaves every first mark alone. */
  lemma {:induction false} AddMarkOrder(buckets: seq<Bucket>, n: nat, m: Mark)
    requires FirstSeenOrder(buckets, n)
    ensures FirstSeenOrder(AddMark(buckets, n, m), n + 1)
  {
    var r := AddMark(buckets, n, m);
    match FindTempo(buckets, m.tempo)
    case None =>
      assert forall p :: 0 <= p < |buckets| ==> r[p] == buckets[p];
      assert r[|buckets|].marks == [n];
    case Some(p) =>
      AddMarkJoinShape(buckets, n, m);
      assert r[p].marks[0] == buckets[p].marks[0];
      assert forall q :: 0 <= q < |buckets| && q != p ==> r[q] == buckets[q];
  }

  /** The loop keeps the buckets in first-appearance order. */
  lemma {:induction false} TemposOrdered(marks: seq<Mark>, n: nat, buckets: seq<Bucket>, play: real)
    requires n <= |marks| && FirstSeenOrder(buckets, n)
    ensures FirstSeenOrder(TemposFrom(marks, n, buckets, play).0, |marks|)
    decreases |marks| - n
  {
    if n < |marks| {
      var m := marks[n];
      AddMarkOrder(buckets, n, m);
      TemposOrdered(marks, n + 1, AddMark(buckets, n, m), play + if m.hold then 0.0 else m.duration);
    }
  }

  /** A bucket of another tempo is unaffected by the next mark. */
  lemma {:induction false} BucketOkOther(marks: seq<Mark>, n: nat, b: Bucket)
    requires n < |marks| && BucketOk(marks, n, b) && marks[n].tempo != b.tempo
    ensures BucketOk(marks, n + 1, b)
  {
  }

  /** The next mark opens a bucket for a new tempo. */
  lemma {:induction false} BucketOkOpen(marks: seq<Mark>, n: nat)
    requires n < |marks| && forall i :: 0 <= i < n ==> marks[i].tempo != marks[n].tempo
    ensures var m := marks[n];
            BucketOk(marks, n + 1, Bucket(m.tempo, [n], m.duration, if m.hold then 0.0 else m.duration, if m.hold then 1 else 0))
  {
    var m := marks[n];
    var b := Bucket(m.tempo, [n], m.duration, if m.hold then 0.0 else m.duration, if m.hold then 1 else 0);
    assert b.marks[..0] == [];
    assert b.holds == HoldCount(marks, b.marks);
    assert b.play == PlaySum(marks, b.marks);
    assert b.total == TotalSum(marks, b.marks);
    assert forall k :: 0 <= k < |b.marks| ==> b.marks[k] < n + 1 && marks[b.marks[k]].tempo == b.tempo;
    forall i | 0 <= i < n + 1 && marks[i].tempo == b.tempo
      ensures i in b.marks
    {
    }
  }

  /** The next mark joins the bucket of its tempo. */
  lemma {:induction false} BucketOkJoin(marks: seq<Mark>, n: nat, b: Bucket)
    requires n < |marks| && BucketOk(marks, n, b) && marks[n].tempo == b.tempo
    ensures var m := marks[n];
            BucketOk(marks, n + 1, b.(marks := b.marks + [n], total := b.total + m.duration,
                                      play := b.play + (if m.hold then 0.0 else m.duration),
                                      holds := b.holds + (if m.hold then 1 else 0)))
  {
    SumsAppend(marks, b.marks, n);
    JoinedIndexes(marks, n, b.marks, b.tempo);
  }

  /** The indexes of a bucket, with the next mark of its tempo appended,
      are those of the first `n + 1` marks at that tempo, increasing. */
  lemma {:induction false} JoinedIndexes(marks: seq<Mark>, n: nat, idx: seq<nat>, tempo: real)
    requires n < |marks| && marks[n].tempo == tempo
    requires TempoIndexes(marks, n, idx, tempo)
    ensures TempoIndexes(marks, n + 1, idx + [n], tempo)
  {
    var idx' := idx + [n];
    AppendedIncreasing(idx, n);
    forall k | 0 <= k < |idx'|
      ensures idx'[k] < n + 1 && marks[idx'[k]].tempo == tempo
    {
      if k < |idx| {
        assert idx'[k] == idx[k];
      }
    }
    forall i | 0 <= i < n + 1 && marks[i].tempo == tempo
      ensures i in idx'
    {
      if i < n {
        assert i in idx;
      } else {
        assert idx'[|idx|] == i;
      }
    }
  }

  /** An increasing list below `n` stays increasing with `n` at its end. */
  lemma {:induction false} AppendedIncreasing(idx: seq<nat>, n: nat)
    requires forall k :: 0 <= k < |idx| ==> idx[k] < n
    requires forall k, l :: 0 <= k < l < |idx| ==> idx[k] < idx[l]
    ensures forall k, l :: 0 <= k < l < |idx + [n]| ==> (idx + [n])[k] < (idx + [n])[l]
  {
    forall k, l | 0 <= k < l < |idx + [n]|
      ensures (idx + [n])[k] < (idx + [n])[l]
    {
      assert (idx + [n])[k] == idx[k];
    }
  }

  /** The sums over a list of marks with one more mark at its end. */
  lemma {:induction false} SumsAppend(marks: seq<Mark>, idx: seq<nat>, k: nat)
    requires k < |marks| && forall j :: 0 <= j < |idx| ==> idx[j] < |marks|
    ensures var m := marks[k];
            && HoldCount(marks, idx + [k]) == HoldCount(marks, idx) + (if m.hold then 1 else 0)
            && PlaySum(marks, idx + [k]) == PlaySum(marks, idx) + (if m.hold then 0.0 else m.duration)
            && TotalSum(marks, idx + [k]) == TotalSum(marks, idx) + m.duration
  {
    assert (idx + [k])[..|idx|] == idx;
  }

  /** A mark of a new tempo opens a bucket at the end. */
  lemma {:induction false} AddMarkOpens(marks: seq<Mark>, n: nat, buckets: seq<Bucket>)
    requires n < |marks| && Bucketed(marks, n, buckets) && FindTempo(buckets, marks[n].tempo).None?
    ensures Bucketed(marks, n + 1, AddMark(buckets, n, marks[n]))
  {
    var m := marks[n];
    var r := AddMark(buckets, n, m);
    assert r == buckets + [r[|r| - 1]];
    FindTempoFirst(buckets, m.tempo);
    OpenedIsNew(marks, n, buckets);
    OpenedBucketsOk(marks, n, buckets, r);
    OpenedCover(marks, n, buckets, r);
    OpenedDistinct(buckets, r, m.tempo);
  }

  /** A tempo no bucket has is not the tempo of any earlier mark. */
  lemma {:induction false} OpenedIsNew(marks: seq<Mark>, n: nat, buckets: seq<Bucket>)
    requires n < |marks|
    requires forall i :: 0 <= i < n ==> FindTempo(buckets, marks[i].tempo).Some?
    requires forall p :: 0 <= p < |buckets| ==> buckets[p].tempo != marks[n].tempo
    ensures forall i :: 0 <= i < n ==> marks[i].tempo != marks[n].tempo
  {
    forall i | 0 <= i < n
      ensures marks[i].tempo != marks[n].tempo
    {
      var p := FindTempo(buckets, marks[i].tempo).value;
      assert buckets[p].tempo == marks[i].tempo;
    }
  }

  /** After an opening every bucket is as `BucketOk` describes. */
  lemma {:induction false} OpenedBucketsOk(marks: seq<Mark>, n: nat, buckets: seq<Bucket>, r: seq<Bucket>)
    requires n < |marks| && forall i :: 0 <= i < n ==> marks[i].tempo != marks[n].tempo
    requires forall p :: 0 <= p < |buckets| ==> BucketOk(marks, n, buckets[p])
    requires forall p :: 0 <= p < |buckets| ==> buckets[p].tempo != marks[n].tempo
    requires var m := marks[n];
             r == buckets + [Bucket(m.tempo, [n], m.duration, if m.hold then 0.0 else m.duration, if m.hold then 1 else 0)]
    ensures forall p :: 0 <= p < |r| ==> BucketOk(marks, n + 1, r[p])
  {
    BucketOkOpen(marks, n);
    forall p | 0 <= p < |r|
      ensures BucketOk(marks, n + 1, r[p])
    {
      if p < |buckets| {
        assert r[p] == buckets[p];
        BucketOkOther(marks, n, buckets[p]);
      }
    }
  }

  /** After an opening every mark so far finds its bucket. */
  lemma {:induction false} OpenedCover(marks: seq<Mark>, n: nat, buckets: seq<Bucket>, r: seq<Bucket>)
    requires n < |marks| && forall i :: 0 <= i < n ==> FindTempo(buckets, marks[i].tempo).Some?
    requires |r| == |buckets| + 1 && r == buckets + [r[|buckets|]] && r[|buckets|].tempo == marks[n].tempo
    ensures forall i :: 0 <= i < n + 1 ==> FindTempo(r, marks[i].tempo).Some?
  {
    forall i | 0 <= i < n + 1
      ensures FindTempo(r, marks[i].tempo).Some?
    {
      FindTempoAppend(buckets, r[|buckets|], marks[i].tempo);
    }
  }

  /** Appending a bucket of a new tempo keeps the tempos distinct. */
  lemma {:induction false} OpenedDistinct(buckets: seq<Bucket>, r: seq<Bucket>, t: real)
    requires forall p, q :: 0 <= p < q < |buckets| ==> buckets[p].tempo != buckets[q].tempo
    requires forall p :: 0 <= p < |buckets| ==> buckets[p].tempo != t
    requires |r| == |buckets| + 1 && r == buckets + [r[|buckets|]] && r[|buckets|].tempo == t
    ensures forall p, q :: 0 <= p < q < |r| ==> r[p].tempo != r[q].tempo
  {
    forall p, q | 0 <= p < q < |r|
      ensures r[p].tempo != r[q].tempo
    {
      assert r[p] == buckets[p];
      if q < |buckets| {
        assert r[q] == buckets[q];
      }
    }
  }

  /** One iteration keeps the buckets as `Bucketed` describes. */
  lemma {:induction false} AddMarkKeeps(marks: seq<Mark>, n: nat, buckets: seq<Bucket>)
    requires n < |marks| && Bucketed(marks, n, buckets)
    ensures Bucketed(marks, n + 1, AddMark(buckets, n, marks[n]))
  {
    if FindTempo(buckets, marks[n].tempo).None? {
      AddMarkOpens(marks, n, buckets);
    } else {
      AddMarkJoins(marks, n, buckets);
    }
  }

  lemma {:induction false} AddMarkJoinShape(buckets: seq<Bucket>, i: nat, m: Mark)
    requires FindTempo(buckets, m.tempo).Some?
    ensures var p := FindTempo(buckets, m.tempo).value;
            var b := buckets[p];
            AddMark(buckets, i, m) ==
              buckets[p := b.(marks := b.marks + [i], total := b.total + m.duration,
                              play := b.play + (if m.hold then 0.0 else m.duration),
                              holds := b.holds + (if m.hold then 1 else 0))]
  {
  }

  /** Where a tempo is found depends on the buckets' tempos only. */
  lemma {:induction false} FindTempoSame(a: seq<Bucket>, b: seq<Bucket>)
    requires |a| == |b| && forall q :: 0 <= q < |a| ==> a[q].tempo == b[q].tempo
    ensures forall t :: FindTempo(a, t) == FindTempo(b, t)
    decreases |a|
  {
    if a != [] {
      FindTempoSame(a[1..], b[1..]);
    }
  }

  /** A mark of a known tempo joins that bucket. */
  lemma {:induction false} AddMarkJoins(marks: seq<Mark>, n: nat, buckets: seq<Bucket>)
    requires n < |marks| && Bucketed(marks, n, buckets) && FindTempo(buckets, marks[n].tempo).Some?
    ensures Bucketed(marks, n + 1, AddMark(buckets, n, marks[n]))
  {
    var m := marks[n];
    var r := AddMark(buckets, n, m);
    var p := FindTempo(buckets, m.tempo).value;
    AddMarkJoinShape(buckets, n, m);
    OthersDiffer(buckets, p);
    JoinedBucketsOk(marks, n, buckets);
    FindTempoSame(buckets, r);
    JoinedCover(marks, n, buckets, r);
    SameTempos(buckets, r);
    assert Bucketed(marks, n + 1, r);
  }

  /** Among buckets of distinct tempos, only bucket `p` has `p`'s tempo. */
  lemma {:induction false} OthersDiffer(buckets: seq<Bucket>, p: nat)
    requires p < |buckets|
    requires forall i, j :: 0 <= i < j < |buckets| ==> buckets[i].tempo != buckets[j].tempo
    ensures forall q :: 0 <= q < |buckets| && q != p ==> buckets[q].tempo != buckets[p].tempo
  {
    forall q | 0 <= q < |buckets| && q != p
      ensures buckets[q].tempo != buckets[p].tempo
    {
      if q < p {
        assert buckets[q].tempo != buckets[p].tempo;
      } else {
        assert buckets[p].tempo != buckets[q].tempo;
      }
    }
  }

  /** After a join every bucket is still as `BucketOk` describes. */
  lemma {:induction false} JoinedBucketsOk(marks: seq<Mark>, n: nat, buckets: seq<Bucket>)
    requires n < |marks| && FindTempo(buckets, marks[n].tempo).Some?
    requires forall q :: 0 <= q < |buckets| ==> BucketOk(marks, n, buckets[q])
    requires forall q :: 0 <= q < |buckets| && q != FindTempo(buckets, marks[n].tempo).value ==>
               buckets[q].tempo != marks[n].tempo
    ensures var r := AddMark(buckets, n, marks[n]);
            forall q :: 0 <= q < |r| ==> BucketOk(marks, n + 1, r[q])
  {
    var p := FindTempo(buckets, marks[n].tempo).value;
    var r := AddMark(buckets, n, marks[n]);
    AddMarkJoinShape(buckets, n, marks[n]);
    BucketOkJoin(marks, n, buckets[p]);
    forall q | 0 <= q < |r|
      ensures BucketOk(marks, n + 1, r[q])
    {
      if q != p {
        assert r[q] == buckets[q];
        BucketOkOther(marks, n, buckets[q]);
      }
    }
  }

  /** Buckets with the same tempos are as distinct as before. */
  lemma {:induction false} SameTempos(a: seq<Bucket>, b: seq<Bucket>)
    requires |a| == |b| && forall q :: 0 <= q < |a| ==> a[q].tempo == b[q].tempo
    requires forall q, q' :: 0 <= q < q' < |a| ==> a[q].tempo != a[q'].tempo
    ensures forall q, q' :: 0 <= q < q' < |b| ==> b[q].tempo != b[q'].tempo
  {
  }

  /** After a join every mark so far still finds its bucket. */
  lemma {:induction false} JoinedCover(marks: seq<Mark>, n: nat, buckets: seq<Bucket>, r: seq<Bucket>)
    requires n < |marks| && FindTempo(buckets, marks[n].tempo).Some?
    requires forall i :: 0 <= i < n ==> FindTempo(buckets, marks[i].tempo).Some?
    requires forall t :: FindTempo(buckets, t) == FindTempo(r, t)
    ensures forall i :: 0 <= i < n + 1 ==> FindTempo(r, marks[i].tempo).Some?
  {
  }

  /** Adding a mark adds its play duration to the buckets' sum. */
  lemma {:induction false} AddMarkPlay(buckets: seq<Bucket>, i: nat, m: Mark, r: seq<Bucket>, d: real)
    requires r == AddMark(buckets, i, m) && d == if m.hold then 0.0 else m.duration
    ensures BucketPlay(r) == BucketPlay(buckets) + d
  {
    match FindTempo(buckets, m.tempo)
    case None =>
      assert r[..|r| - 1] == buckets;
    case Some(p) =>
      AddMarkJoinShape(buckets, i, m);
      BucketPlayUpdate(buckets, p, r[p]);
  }

  /** The play duration the loop returns is the sum of the durations of the
      marks that do not hold. */
  lemma {:induction false} TemposPlay(marks: seq<Mark>, n: nat, buckets: seq<Bucket>, play: real)
    requires n <= |marks| && play == PlayOfFirst(marks, n)
    ensures TemposFrom(marks, n, buckets, play).1 == PlayOfFirst(marks, |marks|)
    decreases |marks| - n
  {
    if n < |marks| {
      var m := marks[n];
      TemposPlay(marks, n + 1, AddMark(buckets, n, m), play + if m.hold then 0.0 else m.duration);
    }
  }

  /** The buckets' play durations add up to the play duration the loop
      returns. */
  lemma {:induction false} BucketsPlay(marks: seq<Mark>, n: nat, buckets: seq<Bucket>, play: real)
    requires n <= |marks| && BucketPlay(buckets) == play
    ensures var r := TemposFrom(marks, n, buckets, play); BucketPlay(r.0) == r.1
    decreases |marks| - n
  {
    if n < |marks| {
      var m := marks[n];
      var d := if m.hold then 0.0 else m.duration;
      var next := AddMark(buckets, n, m);
      AddMarkPlay(buckets, n, m, next, d);
      BucketsPlay(marks, n + 1, next, play + d);
    }
  }

  /** Replacing one bucket changes the sum by the difference of their
      play durations. */
  lemma {:induction false} BucketPlayUpdate(buckets: seq<Bucket>, p: nat, b: Bucket)
    requires p < |buckets|
    ensures BucketPlay(buckets[p := b]) == BucketPlay(buckets) - buckets[p].play + b.play
    decreases |buckets|
  {
    var r := buckets[p := b];
    if p < |buckets| - 1 {
      BucketPlayUpdate(buckets[..|buckets| - 1], p, b);
      assert r[..|r| - 1] == buckets[..|buckets| - 1][p := b];
    } else {
      assert r[..|r| - 1] == buckets[..|buckets| - 1];
    }
  }

  /** The loop of `build_tempos_from_group` sorts the marks into buckets as
      `Bucketed` describes. */
  lemma {:induction false} TemposCorrect(marks: seq<Mark>, n: nat, buckets: seq<Bucket>, play: real)
    requires n <= |marks| && Bucketed(marks, n, buckets)
    ensures Bucketed(marks, |marks|, TemposFrom(marks, n, buckets, play).0)
    decreases |marks| - n
  {
    if n < |marks| {
      var m := marks[n];
      var next, play' := AddMark(buckets, n, m), play + if m.hold then 0.0 else m.duration;
      assert TemposFrom(marks, n, buckets, play) == TemposFrom(marks, n + 1, next, play');
      AddMarkKeeps(marks, n, buckets);
      TemposCorrect(marks, n + 1, next, play');
    }
  }

  /** What `build_tempos_from_group` returns: one bucket per distinct tempo,
      in the order the tempos first appear, each listing exactly the marks
      at that tempo with their sums, and the play duration of the group,
      which is also the sum of the buckets' play durations. */
  lemma {:induction false} TemposMeaning(marks: seq<Mark>)
    ensures var r := Tempos(marks);
            && Bucketed(marks, |marks|, r.0)
            && FirstSeenOrder(r.0, |marks|)
            && r.1 == PlayOfFirst(marks, |marks|)
            && BucketPlay(r.0) == r.1
  {
    TemposCorrect(marks, 0, [], 0.0);
    TemposOrdered(marks, 0, [], 0.0);
    TemposPlay(marks, 0, [], 0.0);
    BucketsPlay(marks, 0, [], 0.0);
  }
}
