/** `allocate_files_to_groups`: each group's file list is cut into
    consecutive slices, one per mark, as long as the mark's file count, and
    every mark's label is given its files, the time each file shows and the
    group's directory. The packaged copy also caps a mark at its duration
    times the frame rate, keeping that many evenly spaced files of its
    slice; the standalone copy only shortens a slice that runs past the end
    of the list. */
module Allocation {
  import opened Base
  import opened Numbers
  import opened PyList
  import opened Common
  import opened Assembly

  /** What the loop stores in a mark's label: `num_files`, `files`,
      `files_duration` and `path`. */
  datatype Slot = Slot(numFiles: int, files: seq<string>, duration: real, path: string)

  /** `g["group"]["path"]`: a meta group has no directory. */
  function GroupPath(entry: GroupEntry): (r: Result<string>)
  {
    if entry.Pure? then Ok(entry.path) else Err(KeyError)
  }

  // ---------------------------------------------------------------------
  // Evenly spaced picks

  /** `np.round(np.linspace(0, len - 1, n)).astype(int)[i]`. */
  function Pick(len: nat, n: nat, i: nat): int
    requires 1 <= n
  {
    if n == 1 then 0 else RoundHalfEven(Position(i, Step(len, n)))
  }

  /** The `i`-th value of `np.linspace` from 0 with spacing `step`. */
  function Position(i: nat, step: real): real {
    i as real * step
  }

  /** The distance between two neighbouring positions of `np.linspace`. */
  function Step(len: nat, n: nat): (s: real)
    requires 2 <= n
    ensures len >= 1 ==> s >= 0.0
    ensures len >= n ==> s >= 1.0
    ensures (n - 1) as real * s == (len - 1) as real
  {
    (len - 1) as real / (n - 1) as real
  }

  /** Every pick is a position of the list. */
  lemma {:induction false} PicksInRange(len: nat, n: nat)
    requires 1 <= n && 1 <= len
    ensures forall i :: 0 <= i < n ==> 0 <= Pick(len, n, i) < len
  {
    forall i | 0 <= i < n
      ensures 0 <= Pick(len, n, i) < len
    {
      PickBounds(len, n, i);
    }
  }

  lemma {:induction false} PickBounds(len: nat, n: nat, i: nat)
    requires 1 <= n && 1 <= len && i < n
    ensures 0 <= Pick(len, n, i) <= len - 1
  {
    if n > 1 {
      var step := Step(len, n);
      ScaleBelow(i, n - 1, step);
      assert Position(n - 1, step) == (len - 1) as real;
      RoundMonotone(0.0, Position(i, step));
      RoundMonotone(Position(i, step), (len - 1) as real);
      RoundWhole(0);
      RoundWhole(len - 1);
    }
  }

  lemma {:induction false} ScaleBelow(i: nat, j: nat, step: real)
    requires i <= j && step >= 0.0
    ensures 0.0 <= Position(i, step) <= Position(j, step)
  {
  }

  /** A whole number rounds to itself. */
  lemma {:induction false} RoundWhole(k: int)
    ensures RoundHalfEven(k as real) == k
  {
  }

  /** `[x for x in np.array(files)[filtered_idx]]` with `n` evenly spaced
      positions: `np.linspace` refuses a negative count, and indexing an
      empty array fails. */
  function Spaced(files: seq<string>, n: int): (r: Result<seq<string>>)
    ensures r.Ok? <==> n == 0 || (n > 0 && files != [])
    ensures r.Err? ==> r.error == (if n < 0 then ValueError else IndexError)
    ensures r.Ok? ==> |r.value| == n
  {
    if n < 0 then Err(ValueError)
    else if n == 0 then Ok([])
    else if files == [] then Err(IndexError)
    else
      PicksInRange(|files|, n);
      Ok(seq(n, i requires 0 <= i < n => files[Pick(|files|, n, i)]))
  }

  /** The picks keep the first file and, when there are at least two, the
      last; they never go back; and when the list has at least as many
      files as are picked, no file is picked twice. */
  lemma {:induction false} SpacedMeaning(files: seq<string>, n: nat)
    requires 1 <= n && files != []
    ensures var r := Spaced(files, n).value;
            && (forall i :: 0 <= i < n ==> 0 <= Pick(|files|, n, i) < |files| && r[i] == files[Pick(|files|, n, i)])
            && r[0] == files[0]
            && (n >= 2 ==> r[n - 1] == files[|files| - 1])
            && (forall i, j :: 0 <= i < j < n ==> Pick(|files|, n, i) <= Pick(|files|, n, j))
            && (|files| >= n ==> forall i, j :: 0 <= i < j < n ==> Pick(|files|, n, i) < Pick(|files|, n, j))
  {
    var len := |files|;
    PicksInRange(len, n);
    RoundWhole(0);
    if n >= 2 {
      assert Position(n - 1, Step(len, n)) == (len - 1) as real;
      RoundWhole(len - 1);
    }
    forall i, j | 0 <= i < j < n
      ensures Pick(len, n, i) <= Pick(len, n, j)
      ensures len >= n ==> Pick(len, n, i) < Pick(len, n, j)
    {
      PickOrder(len, n, i, j);
    }
  }

  lemma {:induction false} PickOrder(len: nat, n: nat, i: nat, j: nat)
    requires 2 <= n && 1 <= len && i < j < n
    ensures Pick(len, n, i) <= Pick(len, n, j)
    ensures len >= n ==> Pick(len, n, i) < Pick(len, n, j)
  {
    RoundOrder(i, j, Step(len, n));
  }

  /** Positions `i < j` at the same spacing round in order, and apart once
      the spacing is at least one. */
  lemma {:induction false} RoundOrder(i: nat, j: nat, step: real)
    requires i < j && step >= 0.0
    ensures RoundHalfEven(Position(i, step)) <= RoundHalfEven(Position(j, step))
    ensures step >= 1.0 ==> RoundHalfEven(Position(i, step)) < RoundHalfEven(Position(j, step))
  {
    var x, y := Position(i, step), Position(j, step);
    ScaleGap(i, j, step);
    RoundMonotone(x, y);
    if step == 1.0 {
      RoundWhole(i);
      RoundWhole(j);
    } else if step > 1.0 {
      RoundStrict(x, y);
    }
  }

  /** Positions `i < j` are at least one spacing apart; at spacing one they
      are the whole numbers themselves. */
  lemma {:induction false} ScaleGap(i: nat, j: nat, step: real)
    requires i < j && step >= 0.0
    ensures Position(i, step) + step <= Position(j, step)
    ensures step == 1.0 ==> Position(i, step) == i as real && Position(j, step) == j as real
  {
    var d := (j - i - 1) as real;
    assert d * step >= 0.0;
    assert j as real * step == i as real * step + step + d * step;
    assert Position(i, step) == i as real * step && Position(j, step) == j as real * step;
  }

  // ---------------------------------------------------------------------
  // One mark

  /** One iteration of the loop in `lapse-parse.py`, for a mark with
      `nf` files whose slice starts at `idx`. */
  function StandaloneStep(g: Group, m: Mark, nf: int, idx: nat): (r: Result<(Slot, nat)>)
  {
    var endIdx := idx + nf;
    var sliced := Slice(g.files, Some(idx), Some(endIdx));
    var n: nat := if |sliced| != endIdx - idx then |sliced| else nf;
    if n == 0 then Err(ZeroDivisionError)
    else
      var path :- GroupPath(g.entry);
      Ok((Slot(n, sliced, m.duration / n as real, path), idx + n))
  }

  /** One iteration of the loop in `prelapse/parser.py`, at `framerate`
      frames a second. The count is `goal_files` when the frame rate caps
      it; otherwise the label keeps its count even when the slice comes out
      shorter, and only `idx` moves by the slice's length. */
  function PackagedStep(g: Group, m: Mark, nf: int, idx: nat, framerate: real): (r: Result<(Slot, nat)>)
  {
    if nf == 0 then Err(ZeroDivisionError)
    else
      var duration := m.duration / nf as real;
      var endIdx := idx + nf;
      var files := Slice(g.files, Some(idx), Some(endIdx));
      var goal := RoundHalfEven(m.duration * framerate);
      if goal == 0 then Err(ZeroDivisionError)
      else if nf > goal then
        var picks :- Spaced(files, goal);
        var path :- GroupPath(g.entry);
        Ok((Slot(|picks|, picks, m.duration / |picks| as real, path), idx + nf))
      else
        var n: nat := if |files| != endIdx - idx then |files| else nf;
        var path :- GroupPath(g.entry);
        Ok((Slot(nf, files, duration, path), idx + n))
  }

  function SlotStep(v: Variant, framerate: real, g: Group, m: Mark, nf: int, idx: nat): Result<(Slot, nat)> {
    match v
    case Packaged => PackagedStep(g, m, nf, idx, framerate)
    case Standalone => StandaloneStep(g, m, nf, idx)
  }

  // ---------------------------------------------------------------------
  // One group

  /** The loop over the marks of group `g` from mark `k`, with the slots of
      the marks before it and the slice index `idx`; `nfs` are the marks'
      file counts. The slices must end at the group's count. */
  function AllocateFrom(v: Variant, framerate: real, g: Group, nfs: seq<int>, k: nat, idx: nat, slots: seq<Slot>)
    : (r: Result<seq<Slot>>)
    requires |nfs| == |g.marks| && k <= |nfs|
    ensures r.Ok? && |slots| == k ==> |r.value| == |nfs|
    decreases |nfs| - k
  {
    if k == |nfs| then
      if idx != g.count then Err(SliceIndexMismatch) else Ok(slots)
    else
      var step :- SlotStep(v, framerate, g, g.marks[k], nfs[k], idx);
      AllocateFrom(v, framerate, g, nfs, k + 1, step.1, slots + [step.0])
  }

  /** The slots of every mark of group `g`. */
  function Allocated(v: Variant, framerate: real, g: Group, nfs: seq<int>): (r: Result<seq<Slot>>)
    requires |nfs| == |g.marks|
    ensures r.Ok? ==> |r.value| == |nfs|
  {
    AllocateFrom(v, framerate, g, nfs, 0, 0, [])
  }

  /** The body of `for g in groups` in `allocate_files_to_groups`. */
  method AllocateGroup(v: Variant, framerate: real, g: Group, nfs: seq<int>) returns (r: Result<seq<Slot>>)
    requires |nfs| == |g.marks|
    ensures r == Allocated(v, framerate, g, nfs)
  {
    var idx: nat := 0;
    var slots: seq<Slot> := [];
    for k := 0 to |nfs|
      invariant Allocated(v, framerate, g, nfs) == AllocateFrom(v, framerate, g, nfs, k, idx, slots)
    {
      var step := SlotStep(v, framerate, g, g.marks[k], nfs[k], idx);
      if step.Err? {
        return Err(step.error);
      }
      slots := slots + [step.value.0];
      idx := step.value.1;
    }
    if idx != g.count {
      return Err(SliceIndexMismatch);
    }
    return Ok(slots);
  }

  // ---------------------------------------------------------------------
  // What the slices are

  /** The files of the slots, one after the other. */
  function FilesOf(slots: seq<Slot>): seq<string> {
    if slots == [] then [] else FilesOf(slots[..|slots| - 1]) + slots[|slots| - 1].files
  }

  /** Where the slice of mark `k` starts when every earlier mark takes its
      full count. */
  function Offset(nfs: seq<int>, k: nat): int
    requires k <= |nfs|
  {
    if k == 0 then 0 else Offset(nfs, k - 1) + nfs[k - 1]
  }

  /** What a standalone slot holds: a nonempty run of files, no longer than
      the mark's count when that is not negative (a negative count slices
      from the end of the list), each shown for an equal share of the
      mark's time. */
  predicate StandaloneSlotOk(g: Group, nf: int, m: Mark, s: Slot) {
    && s.numFiles == |s.files| && 1 <= s.numFiles && (0 <= nf ==> s.numFiles <= nf)
    && s.duration * s.numFiles as real == m.duration
    && g.entry.Pure? && s.path == g.entry.path
  }

  /** The standalone loop after `k` marks: their slots cut the first `idx`
      files of the group into consecutive runs. */
  predicate StandaloneInv(g: Group, nfs: seq<int>, k: nat, idx: nat, slots: seq<Slot>)
    requires |nfs| == |g.marks| && k <= |nfs|
  {
    && |slots| == k && idx <= |g.files|
    && FilesOf(slots) == g.files[..idx]
    && forall j :: 0 <= j < k ==> StandaloneSlotOk(g, nfs[j], g.marks[j], slots[j])
  }

  /** One standalone step takes the next run of files after `idx`. */
  lemma {:induction false} StandaloneStepShape(g: Group, m: Mark, nf: int, idx: nat, s: Slot, next: nat)
    requires idx <= |g.files| && StandaloneStep(g, m, nf, idx) == Ok((s, next))
    ensures idx <= next <= |g.files| && s.files == g.files[idx..next]
    ensures StandaloneSlotOk(g, nf, m, s)
  {
    SliceFrom(g.files, idx, idx + nf);
    var sliced := Slice(g.files, Some(idx), Some(idx + nf));
    assert s.files == sliced && s.numFiles == |sliced| && next == idx + |sliced|;
  }

  lemma {:induction false} FilesOfAppend(slots: seq<Slot>, s: Slot)
    ensures FilesOf(slots + [s]) == FilesOf(slots) + s.files
  {
    assert (slots + [s])[..|slots|] == slots;
  }

  lemma {:induction false} StandaloneStepKeeps(g: Group, nfs: seq<int>, k: nat, idx: nat, slots: seq<Slot>,
                                              s: Slot, next: nat)
    requires |nfs| == |g.marks| && k < |nfs| && StandaloneInv(g, nfs, k, idx, slots)
    requires StandaloneStep(g, g.marks[k], nfs[k], idx) == Ok((s, next))
    ensures StandaloneInv(g, nfs, k + 1, next, slots + [s])
  {
    StandaloneStepShape(g, g.marks[k], nfs[k], idx, s, next);
    FilesOfAppend(slots, s);
    assert g.files[..idx] + g.files[idx..next] == g.files[..next];
    var slots' := slots + [s];
    forall j | 0 <= j < k + 1
      ensures StandaloneSlotOk(g, nfs[j], g.marks[j], slots'[j])
    {
      if j < k {
        assert slots'[j] == slots[j];
      }
    }
  }

  lemma {:induction false} StandaloneFromTiles(framerate: real, g: Group, nfs: seq<int>, k: nat, idx: nat,
                                               slots: seq<Slot>, r: seq<Slot>)
    requires |nfs| == |g.marks| && k <= |nfs| && StandaloneInv(g, nfs, k, idx, slots)
    requires AllocateFrom(Standalone, framerate, g, nfs, k, idx, slots) == Ok(r)
    ensures StandaloneInv(g, nfs, |nfs|, g.count, r)
    decreases |nfs| - k
  {
    if k < |nfs| {
      var step := StandaloneStep(g, g.marks[k], nfs[k], idx).value;
      StandaloneStepKeeps(g, nfs, k, idx, slots, step.0, step.1);
      StandaloneFromTiles(framerate, g, nfs, k + 1, step.1, slots + [step.0], r);
    }
  }

  /** The standalone allocation of a group whose count is the length of its
      list: when it succeeds, the marks' files are the whole list cut into
      consecutive nonempty runs, in order; each run is no longer than the
      mark's count, the label's count is the run's length, and each file
      shows for an equal share of the mark's time. */
  lemma {:induction false} StandaloneTiles(framerate: real, g: Group, nfs: seq<int>, slots: seq<Slot>)
    requires |nfs| == |g.marks| && g.count == |g.files|
    requires Allocated(Standalone, framerate, g, nfs) == Ok(slots)
    ensures |slots| == |nfs| && FilesOf(slots) == g.files
    ensures forall j :: 0 <= j < |slots| ==> StandaloneSlotOk(g, nfs[j], g.marks[j], slots[j])
  {
    assert g.files[..0] == [];
    StandaloneFromTiles(framerate, g, nfs, 0, 0, [], slots);
    assert g.files[..|g.files|] == g.files;
  }
  // ---------------------------------------------------------------------
  // What the capped slices are

  /** Prefix sums of positive counts never go back. */
  lemma {:induction false} OffsetMono(nfs: seq<int>, i: nat, j: nat)
    requires i <= j <= |nfs| && forall k :: 0 <= k < |nfs| ==> nfs[k] >= 1
    ensures 0 <= Offset(nfs, i) <= Offset(nfs, j)
    ensures i < j ==> Offset(nfs, i) < Offset(nfs, j)
    decreases j
  {
    if i < j {
      OffsetMono(nfs, i, j - 1);
    } else if i > 0 {
      OffsetMono(nfs, 0, i - 1);
    }
  }

  /** What a packaged slot holds for a mark whose slice is `tile`: when the
      mark has more files than its duration times the frame rate, that many
      evenly spaced files of the slice; otherwise the whole slice; each
      shown for an equal share of the mark's time. */
  predicate PackagedSlotOk(framerate: real, g: Group, nf: int, m: Mark, tile: seq<string>, s: Slot) {
    var goal := RoundHalfEven(m.duration * framerate);
    && goal >= 1 && g.entry.Pure? && s.path == g.entry.path
    && (nf > goal ==> Spaced(tile, goal) == Ok(s.files) && s.numFiles == goal && s.duration * goal as real == m.duration)
    && (nf <= goal ==> s.files == tile && s.numFiles == nf && s.duration * nf as real == m.duration)
  }

  /** One packaged step over a slice that lies inside the list. */
  lemma {:induction false} PackagedStepShape(framerate: real, g: Group, m: Mark, nf: int, idx: nat, s: Slot, next: nat)
    requires 1 <= nf && idx + nf <= |g.files|
    requires PackagedStep(g, m, nf, idx, framerate) == Ok((s, next))
    ensures next == idx + nf && PackagedSlotOk(framerate, g, nf, m, g.files[idx..idx + nf], s)
  {
    SliceFrom(g.files, idx, idx + nf);
    assert Slice(g.files, Some(idx), Some(idx + nf)) == g.files[idx..idx + nf];
  }

  /** Slot `s` of mark `j` came from the `j`-th consecutive slice of the
      list. */
  predicate TileOk(framerate: real, g: Group, nfs: seq<int>, j: nat, s: Slot)
    requires |nfs| == |g.marks| && j < |nfs|
  {
    && 0 <= Offset(nfs, j) <= Offset(nfs, j + 1) <= |g.files|
    && PackagedSlotOk(framerate, g, nfs[j], g.marks[j], g.files[Offset(nfs, j)..Offset(nfs, j + 1)], s)
  }

  /** The packaged loop after `k` marks: the slice index is the sum of the
      counts so far, and each slot came from its own consecutive slice. */
  predicate PackagedInv(framerate: real, g: Group, nfs: seq<int>, k: nat, idx: nat, slots: seq<Slot>)
    requires |nfs| == |g.marks| && k <= |nfs|
  {
    && |slots| == k && idx == Offset(nfs, k)
    && forall j :: 0 <= j < k ==> TileOk(framerate, g, nfs, j, slots[j])
  }

  lemma {:induction false} PackagedStepKeeps(framerate: real, g: Group, nfs: seq<int>, k: nat, idx: nat,
                                             slots: seq<Slot>, s: Slot, next: nat)
    requires |nfs| == |g.marks| && k < |nfs| && PackagedInv(framerate, g, nfs, k, idx, slots)
    requires forall j :: 0 <= j < |nfs| ==> nfs[j] >= 1
    requires Offset(nfs, |nfs|) == |g.files|
    requires PackagedStep(g, g.marks[k], nfs[k], idx, framerate) == Ok((s, next))
    ensures PackagedInv(framerate, g, nfs, k + 1, next, slots + [s])
  {
    OffsetMono(nfs, k, k + 1);
    OffsetMono(nfs, k + 1, |nfs|);
    PackagedStepShape(framerate, g, g.marks[k], nfs[k], idx, s, next);
    var slots' := slots + [s];
    assert TileOk(framerate, g, nfs, k, s);
    forall j | 0 <= j < k + 1
      ensures TileOk(framerate, g, nfs, j, slots'[j])
    {
      if j < k {
        assert slots'[j] == slots[j];
      }
    }
  }

  lemma {:induction false} PackagedFromTiles(framerate: real, g: Group, nfs: seq<int>, k: nat, idx: nat,
                                             slots: seq<Slot>, r: seq<Slot>)
    requires |nfs| == |g.marks| && k <= |nfs| && PackagedInv(framerate, g, nfs, k, idx, slots)
    requires forall j :: 0 <= j < |nfs| ==> nfs[j] >= 1
    requires Offset(nfs, |nfs|) == |g.files|
    requires AllocateFrom(Packaged, framerate, g, nfs, k, idx, slots) == Ok(r)
    ensures PackagedInv(framerate, g, nfs, |nfs|, Offset(nfs, |nfs|), r)
    decreases |nfs| - k
  {
    if k < |nfs| {
      var step := PackagedStep(g, g.marks[k], nfs[k], idx, framerate).value;
      PackagedStepKeeps(framerate, g, nfs, k, idx, slots, step.0, step.1);
      PackagedFromTiles(framerate, g, nfs, k + 1, step.1, slots + [step.0], r);
    }
  }

  /** The packaged allocation of a group whose marks' counts are positive
      and add up to the length of its list: when it succeeds, mark `k` gets
      the `k`-th consecutive run of the list, capped at its duration times
      the frame rate by evenly spaced picks, and the runs end at the end of
      the list. */
  lemma {:induction false} PackagedTiles(framerate: real, g: Group, nfs: seq<int>, slots: seq<Slot>)
    requires |nfs| == |g.marks| && forall j :: 0 <= j < |nfs| ==> nfs[j] >= 1
    requires Offset(nfs, |nfs|) == |g.files|
    requires Allocated(Packaged, framerate, g, nfs) == Ok(slots)
    ensures |slots| == |nfs|
    ensures forall j :: 0 <= j < |slots| ==> TileOk(framerate, g, nfs, j, slots[j])
  {
    PackagedFromTiles(framerate, g, nfs, 0, 0, [], slots);
  }
}
